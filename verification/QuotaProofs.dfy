/** What the counters of `Quota` keep in every interleaving. */
module QuotaProofs {
  import opened Basics
  import opened Quota

  function Abs(n: int): nat { if n < 0 then -n else n }

  function Min(a: int, b: int): int { if a <= b then a else b }

  function Max(a: int, b: int): int { if a <= b then b else a }

  predicate IsFlusherAction(a: Action) {
    a.BeginScan? || a.Swap? || a.SendOk? || a.SendFail? || a.EndScan?
  }

  /** Connections that share a key share its limit. */
  ghost predicate LimitsAgree(actions: seq<Action>, limitOf: KeyId -> u64) {
    forall i | 0 <= i < |actions| :: actions[i].Auth? ==> actions[i].limit == limitOf(actions[i].key)
  }

  // ── Identity of counters ──────────────────────────────────────────

  ghost predicate WellFormed(s: State) {
    && (forall k | k in s.registry :: s.registry[k] < |s.cells|)
    && (forall k, k' | k in s.registry && k' in s.registry && s.registry[k] == s.registry[k'] :: k == k')
    && (forall c | 0 <= c < |s.conns| :: HoldsItsCounter(s, s.conns[c]))
    && (s.flusher.Scanning? ==> s.flusher.todo <= s.registry.Keys)
    && (s.flusher.Holding? ==> s.flusher.cell < |s.cells| && s.flusher.todo <= s.registry.Keys)
  }

  ghost predicate HoldsItsCounter(s: State, c: Conn) {
    && (!c.phase.Idle? ==> c.limit > 0)
    && (c.phase.Found? || c.phase.Over? ==> c.key in s.registry && s.registry[c.key] == c.phase.cell)
  }

  lemma StepGrowsRegistry(s: State, a: Action)
    requires WellFormed(s)
    ensures forall k | k in s.registry :: k in Step(s, a).registry && Step(s, a).registry[k] == s.registry[k]
    ensures |Step(s, a).conns| == |s.conns| && |s.cells| <= |Step(s, a).cells|
  {
  }

  lemma StepKeepsHolders(s: State, a: Action)
    requires WellFormed(s)
    ensures forall c | 0 <= c < |Step(s, a).conns| :: HoldsItsCounter(Step(s, a), Step(s, a).conns[c])
  {
    var t := Step(s, a);
    StepGrowsRegistry(s, a);
    forall c | 0 <= c < |t.conns| ensures HoldsItsCounter(t, t.conns[c]) {
      assert HoldsItsCounter(s, s.conns[c]);
    }
  }

  lemma StepKeepsWellFormed(s: State, a: Action)
    requires WellFormed(s)
    ensures WellFormed(Step(s, a))
    ensures forall k | k in s.registry :: k in Step(s, a).registry && Step(s, a).registry[k] == s.registry[k]
    ensures |Step(s, a).conns| == |s.conns|
  {
    StepGrowsRegistry(s, a);
    StepKeepsHolders(s, a);
  }

  // ── Counting refusals that have not subtracted yet ────────────────

  /** With or without connection `c` itself, the others that wait are counted alike. */
  lemma WaitingApart(conns: seq<Conn>, c: nat, x: nat)
    requires c < |conns|
    ensures |WaitingOn(conns, x)| == |WaitingOn(conns, x) - {c}| + if conns[c].phase == Over(x) then 1 else 0
  {
    var rest := WaitingOn(conns, x) - {c};
    assert WaitingOn(conns, x) == if conns[c].phase == Over(x) then rest + {c} else rest;
  }

  lemma WaitingElse(conns: seq<Conn>, c: nat, conn: Conn, x: nat)
    requires c < |conns|
    ensures WaitingOn(conns[c := conn], x) - {c} == WaitingOn(conns, x) - {c}
  {
    forall d: nat | d < |conns| && d != c ensures conns[c := conn][d] == conns[d] {
    }
  }

  lemma WaitingAfter(conns: seq<Conn>, c: nat, conn: Conn, x: nat)
    requires c < |conns|
    ensures |WaitingOn(conns[c := conn], x)| == |WaitingOn(conns, x)|
      - (if conns[c].phase == Over(x) then 1 else 0) + (if conn.phase == Over(x) then 1 else 0)
  {
    WaitingApart(conns, c, x);
    WaitingApart(conns[c := conn], c, x);
    WaitingElse(conns, c, conn, x);
  }

  lemma PendingAfter(s: State, c: nat, p: Phase, x: nat)
    requires c < |s.conns|
    ensures Pending(SetPhase(s, c, p), x) == Pending(s, x)
      - (if s.conns[c].phase == Over(x) then 1 else 0) + (if p == Over(x) then 1 else 0)
  {
    WaitingAfter(s.conns, c, s.conns[c].(phase := p), x);
  }

  lemma PendingAtMostConnections(s: State, x: nat)
    ensures Pending(s, x) <= |s.conns|
  {
    SizeBelow(WaitingOn(s.conns, x), |s.conns|);
  }

  lemma SizeBelow(a: set<nat>, n: nat)
    requires forall c | c in a :: c < n
    ensures |a| <= n
  {
    if n > 0 {
      SizeBelow(a - {n - 1}, n - 1);
    } else {
      assert a == {};
    }
  }

  lemma PendingStep(s: State, a: Action, x: nat)
    requires WellFormed(s) && x < |s.cells|
    ensures Pending(Step(s, a), x) == Pending(s, x)
      + (if Enabled(s, a) && a.FetchAdd? && s.conns[a.c].phase == Found(x) && s.cells[x].value >= s.conns[a.c].limit
         then 1 else 0)
      - (if Enabled(s, a) && a.FetchSub? && s.conns[a.c].phase == Over(x) then 1 else 0)
  {
    if Enabled(s, a) {
      match a
      case Auth(c, k, limit) => assert WaitingOn(Step(s, a).conns, x) == WaitingOn(s.conns, x);
      case Lookup(c) => PendingAfter(s, c, Step(s, a).conns[c].phase, x);
      case Insert(c) => PendingAfter(s, c, Step(s, a).conns[c].phase, x);
      case FetchAdd(c) => PendingAfter(s, c, Step(s, a).conns[c].phase, x);
      case FetchSub(c) => PendingAfter(s, c, Idle, x);
      case BeginScan =>
      case Swap(_) =>
      case SendOk =>
      case SendFail =>
      case EndScan =>
    }
  }

  // ── One counter at a time ─────────────────────────────────────────

  /** What the flusher holds of one counter. */
  datatype Held = Nothing | Drained(ops: u64, net: int)

  /** Everything an action can change about one counter. */
  datatype View = View(cell: Cell, pending: nat, held: Held)

  datatype Move = Stay | Add(limit: u64) | Sub | SwapOut | Acknowledge | GiveBack

  function ViewOf(s: State, x: nat): View
    requires x < |s.cells|
  {
    View(s.cells[x], Pending(s, x),
         if s.flusher.Holding? && s.flusher.cell == x then Drained(s.flusher.ops, s.flusher.net) else Nothing)
  }

  function MoveOf(s: State, a: Action, x: nat): Move {
    if !Enabled(s, a) then Stay
    else if a.FetchAdd? && s.conns[a.c].phase == Found(x) then Add(s.conns[a.c].limit)
    else if a.FetchSub? && s.conns[a.c].phase == Over(x) then Sub
    else if a.Swap? && s.registry[a.flushed] == x then SwapOut
    else if a.SendOk? && s.flusher.cell == x then Acknowledge
    else if a.SendFail? && s.flusher.cell == x then GiveBack
    else Stay
  }

  predicate CanMove(v: View, m: Move) {
    && (m.Sub? ==> v.pending > 0)
    && (m.SwapOut? ==> v.held.Nothing?)
    && (m.Acknowledge? || m.GiveBack? ==> v.held.Drained?)
  }

  function Apply(v: View, m: Move): View
    requires CanMove(v, m)
  {
    match m
    case Stay => v
    case Add(limit) => View(AddTo(v.cell, limit), v.pending + if v.cell.value >= limit then 1 else 0, v.held)
    case Sub => View(SubFrom(v.cell), v.pending - 1, v.held)
    case SwapOut =>
      View(Drain(v.cell, v.pending), v.pending, if v.cell.value == 0 then Nothing else Drained(v.cell.value, v.cell.net))
    case Acknowledge =>
      v.(cell := v.cell.(sent := v.cell.sent + v.held.ops, ackedNet := v.cell.ackedNet + v.held.net), held := Nothing)
    case GiveBack =>
      v.(cell := v.cell.(value := AddWrap(v.cell.value, v.held.ops), net := v.cell.net + v.held.net,
                         addedBack := v.held.net),
         held := Nothing)
  }

  lemma MoveIsPossible(s: State, a: Action, x: nat)
    requires WellFormed(s) && x < |s.cells|
    ensures CanMove(ViewOf(s, x), MoveOf(s, a, x)) && x < |Step(s, a).cells|
  {
    if MoveOf(s, a, x).Sub? {
      assert a.c in WaitingOn(s.conns, x);
    }
  }

  lemma FlusherMoves(s: State, a: Action, x: nat)
    requires WellFormed(s) && x < |s.cells| && IsFlusherAction(a)
    requires CanMove(ViewOf(s, x), MoveOf(s, a, x)) && x < |Step(s, a).cells|
    ensures ViewOf(Step(s, a), x) == Apply(ViewOf(s, x), MoveOf(s, a, x))
  {
    PendingStep(s, a, x);
  }

  lemma GateMoves(s: State, a: Action, x: nat)
    requires WellFormed(s) && x < |s.cells| && !IsFlusherAction(a)
    requires CanMove(ViewOf(s, x), MoveOf(s, a, x)) && x < |Step(s, a).cells|
    ensures ViewOf(Step(s, a), x) == Apply(ViewOf(s, x), MoveOf(s, a, x))
  {
    PendingStep(s, a, x);
  }

  /** Every action moves every counter by exactly one of the moves. */
  lemma StepMoves(s: State, a: Action, x: nat)
    requires WellFormed(s) && x < |s.cells|
    ensures CanMove(ViewOf(s, x), MoveOf(s, a, x))
    ensures x < |Step(s, a).cells| && ViewOf(Step(s, a), x) == Apply(ViewOf(s, x), MoveOf(s, a, x))
  {
    MoveIsPossible(s, a, x);
    if IsFlusherAction(a) { FlusherMoves(s, a, x); } else { GateMoves(s, a, x); }
  }

  /** A counter that an action creates is fresh. */
  lemma StepCreates(s: State, a: Action, x: nat)
    requires WellFormed(s) && |s.cells| <= x < |Step(s, a).cells|
    ensures x == |s.cells| && ViewOf(Step(s, a), x) == View(FRESH_CELL, 0, Nothing)
  {
    forall c | 0 <= c < |s.conns| ensures Step(s, a).conns[c].phase != Over(x) {
      assert HoldsItsCounter(s, s.conns[c]);
    }
    assert WaitingOn(Step(s, a).conns, x) == {};
  }

  // ── Conservation ──────────────────────────────────────────────────

  function HeldOps(v: View): nat { if v.held.Drained? then v.held.ops else 0 }

  function HeldNet(v: View): int { if v.held.Drained? then v.held.net else 0 }

  predicate Apart(a: int, b: int, q: int) { a - b == q * 0x1_0000_0000_0000_0000 }

  /** The two are equal modulo 2^64. */
  ghost predicate SameResidue(a: int, b: int) { exists q: int :: Apart(a, b, q) }

  lemma SumOfResidues(a: int, a': int, b: int, b': int)
    requires SameResidue(a, a') && SameResidue(b, b')
    ensures SameResidue(a + b, a' + b')
  {
    var q: int :| Apart(a, a', q);
    var r: int :| Apart(b, b', r);
    assert Apart(a + b, a' + b', q + r);
  }

  /** What a wrap-around takes off or puts on. */
  lemma Wrapping(a: int, b: int, q: int)
    requires SameResidue(a, b)
    ensures SameResidue(a + q * 0x1_0000_0000_0000_0000, b)
  {
    var r: int :| Apart(a, b, r);
    assert Apart(a + q * 0x1_0000_0000_0000_0000, b, r + q);
  }

  lemma Itself(a: int)
    ensures SameResidue(a, a)
  {
    assert Apart(a, a, 0);
  }

  lemma AddWrapResidue(m: u64, n: int, m': u64, n': int)
    requires SameResidue(m, n) && SameResidue(m', n')
    ensures SameResidue(AddWrap(m, m'), n + n')
  {
    SumOfResidues(m, n, m', n');
    Wrapping(m + m', n + n', -1);
  }

  lemma IncResidue(m: u64, n: int)
    requires SameResidue(m, n)
    ensures SameResidue(Inc(m), n + 1)
  {
    Itself(1);
    AddWrapResidue(m, n, 1, 1);
  }

  lemma DecResidue(m: u64, n: int)
    requires SameResidue(m, n)
    ensures SameResidue(Dec(m), n - 1)
  {
    Itself(-1);
    SumOfResidues(m, n, -1, -1);
    Wrapping(m - 1, n - 1, 1);
  }

  /** The wrapped amounts stand for the exact ones. */
  ghost predicate Faithful(v: View) {
    && SameResidue(v.cell.value, v.cell.net)
    && SameResidue(HeldOps(v), HeldNet(v))
    && SameResidue(v.cell.sent, v.cell.ackedNet)
  }

  /** Nothing is lost or made: counter, flusher and server together hold what was charged. */
  predicate Conserved(v: View) {
    && v.cell.net + HeldNet(v) + v.cell.ackedNet == v.cell.admitted + v.pending
    && Abs(v.cell.net) + Abs(HeldNet(v)) <= v.cell.steps
  }

  /** The exact count: the window's admissions and refusals, what a failed send returned, less what its swap caught. */
  predicate WindowCounted(v: View) {
    && v.cell.net == v.cell.window + v.pending + v.cell.addedBack - v.cell.caught
    && (v.held.Drained? ==> v.cell.addedBack == 0)
  }

  ghost predicate Balanced(v: View) { Faithful(v) && Conserved(v) && WindowCounted(v) }

  /** So counter, held and acknowledged amounts add up to what was charged, wrapping included. */
  lemma BalancedConserves(v: View)
    requires Balanced(v)
    ensures SameResidue(v.cell.value + HeldOps(v) + v.cell.sent, v.cell.admitted + v.pending)
  {
    SumOfResidues(v.cell.value, v.cell.net, HeldOps(v), HeldNet(v));
    SumOfResidues(v.cell.value + HeldOps(v), v.cell.net + HeldNet(v), v.cell.sent, v.cell.ackedNet);
  }

  lemma MoveKeepsConserved(v: View, m: Move)
    requires CanMove(v, m) && Conserved(v)
    ensures Conserved(Apply(v, m))
  {
  }

  lemma MoveKeepsWindowCounted(v: View, m: Move)
    requires CanMove(v, m) && WindowCounted(v)
    ensures WindowCounted(Apply(v, m))
  {
  }

  lemma MoveKeepsFaithful(v: View, m: Move)
    requires CanMove(v, m) && Faithful(v)
    ensures Faithful(Apply(v, m))
  {
    Itself(0);
    match m
    case Stay =>
    case Add(_) => IncResidue(v.cell.value, v.cell.net);
    case Sub => DecResidue(v.cell.value, v.cell.net);
    case SwapOut =>
      if v.cell.value == 0 { SumOfResidues(v.cell.sent, v.cell.ackedNet, v.cell.value, v.cell.net); }
    case Acknowledge => SumOfResidues(v.cell.sent, v.cell.ackedNet, v.held.ops, v.held.net);
    case GiveBack => AddWrapResidue(v.cell.value, v.cell.net, v.held.ops, v.held.net);
  }

  ghost predicate AllBalanced(s: State) {
    forall x: nat | x < |s.cells| :: Balanced(ViewOf(s, x))
  }

  lemma MoveKeepsBalanced(v: View, m: Move)
    requires CanMove(v, m) && Balanced(v)
    ensures Balanced(Apply(v, m))
  {
    MoveKeepsFaithful(v, m);
    MoveKeepsConserved(v, m);
    MoveKeepsWindowCounted(v, m);
  }

  /** Nothing has happened to this counter. */
  predicate Untouched(v: View) {
    var y := v.cell;
    && y.value == 0 && y.net == 0 && y.sent == 0 && y.ackedNet == 0 && y.admitted == 0 && y.steps == 0
    && y.window == 0 && y.addedBack == 0 && y.caught == 0 && v.pending == 0 && v.held == Nothing
  }

  lemma UntouchedIsBalanced(v: View)
    requires Untouched(v)
    ensures Balanced(v)
  {
    Itself(0);
  }

  lemma StepKeepsBalancedAt(s: State, a: Action, x: nat)
    requires WellFormed(s) && AllBalanced(s) && x < |Step(s, a).cells|
    ensures Balanced(ViewOf(Step(s, a), x))
  {
    if x < |s.cells| {
      StepMoves(s, a, x);
      MoveKeepsBalanced(ViewOf(s, x), MoveOf(s, a, x));
    } else {
      StepCreates(s, a, x);
      UntouchedIsBalanced(ViewOf(Step(s, a), x));
    }
  }

  lemma StepKeepsBalanced(s: State, a: Action)
    requires WellFormed(s) && AllBalanced(s)
    ensures AllBalanced(Step(s, a))
  {
    forall x: nat | x < |Step(s, a).cells| ensures Balanced(ViewOf(Step(s, a), x)) {
      StepKeepsBalancedAt(s, a, x);
    }
  }

  lemma {:induction false} RunKeepsBalanced(s: State, actions: seq<Action>)
    requires WellFormed(s) && AllBalanced(s)
    ensures WellFormed(Run(s, actions)) && AllBalanced(Run(s, actions))
    ensures |Run(s, actions).conns| == |s.conns|
    ensures forall k | k in s.registry :: k in Run(s, actions).registry && Run(s, actions).registry[k] == s.registry[k]
    decreases |actions|
  {
    if actions != [] {
      StepKeepsWellFormed(s, actions[0]);
      StepKeepsBalanced(s, actions[0]);
      RunKeepsBalanced(Step(s, actions[0]), actions[1..]);
    }
  }

  lemma {:induction false} RunConcat(s: State, a: seq<Action>, b: seq<Action>)
    ensures Run(s, a + b) == Run(Run(s, a), b)
    decreases |a|
  {
    if a == [] {
      assert a + b == b;
    } else {
      assert (a + b)[1..] == a[1..] + b;
      RunConcat(Step(s, a[0]), a[1..], b);
    }
  }

  /**
   Racing first lookups end on one counter: once a key has a counter it keeps it, no two keys share one, and
   every connection past its lookup holds its key's counter.
   */
  lemma {:induction false} OneCounterPerKey(n: nat, actions: seq<Action>, later: seq<Action>, c: nat)
    requires c < n
    ensures var s := Run(Start(n), actions);
            var t := Run(Start(n), actions + later);
            && (forall k | k in s.registry :: k in t.registry && t.registry[k] == s.registry[k])
            && (forall k, k' | k in s.registry && k' in s.registry && k != k' :: s.registry[k] != s.registry[k'])
            && |t.conns| == n
            && (t.conns[c].phase.Found? || t.conns[c].phase.Over? ==>
                  t.conns[c].key in t.registry && t.registry[t.conns[c].key] == t.conns[c].phase.cell)
  {
    RunKeepsBalanced(Start(n), actions);
    RunConcat(Start(n), actions, later);
    RunKeepsBalanced(Run(Start(n), actions), later);
    var t := Run(Start(n), actions + later);
    assert HoldsItsCounter(t, t.conns[c]);
  }

  /**
   Usage conservation: counter + amount held by the flusher + acknowledged = admitted + refused but not
   yet subtracted, modulo 2^64, whatever the limits and whatever the schedule.
   */
  lemma {:induction false} UsageConserved(n: nat, actions: seq<Action>, x: nat)
    requires x < |Run(Start(n), actions).cells|
    ensures var v := ViewOf(Run(Start(n), actions), x);
            SameResidue(v.cell.value + HeldOps(v) + v.cell.sent, v.cell.admitted + v.pending)
  {
    RunKeepsBalanced(Start(n), actions);
    BalancedConserves(ViewOf(Run(Start(n), actions), x));
  }

  // ── Limits ────────────────────────────────────────────────────────

  ghost predicate Uniform(s: State, limitOf: KeyId -> u64) {
    forall c | 0 <= c < |s.conns| :: s.conns[c].limit == 0 || s.conns[c].limit == limitOf(s.conns[c].key)
  }

  lemma StepKeepsUniform(s: State, a: Action, limitOf: KeyId -> u64)
    requires Uniform(s, limitOf) && (a.Auth? ==> a.limit == limitOf(a.key))
    ensures Uniform(Step(s, a), limitOf)
  {
  }

  /** With one limit per key, requests charged to a key's counter are compared with that key's limit. */
  lemma ChargedAtOwnLimit(s: State, a: Action, k: KeyId, limitOf: KeyId -> u64)
    requires WellFormed(s) && Uniform(s, limitOf) && k in s.registry
    ensures MoveOf(s, a, s.registry[k]).Add? ==> MoveOf(s, a, s.registry[k]).limit == limitOf(k)
  {
    if MoveOf(s, a, s.registry[k]).Add? {
      assert HoldsItsCounter(s, s.conns[a.c]);
    }
  }

  /** What a counter keeps between swaps, as long as its exact value fits in a u64. */
  predicate WindowBounded(v: View, limit: u64) {
    && v.cell.window <= limit + v.cell.caught + Max(0, -v.cell.addedBack)
    && (v.cell.dirtySwaps == 0 ==>
          && v.cell.caught == 0 && v.cell.addedBack >= 0 && HeldNet(v) >= 0
          && (v.pending > 0 ==> v.cell.window + v.cell.addedBack >= limit))
  }

  /** The exact count lies where comparing the wrapped one means what it should. */
  predicate InRange(y: Cell, limit: u64) {
    limit - 0x1_0000_0000_0000_0000 <= y.net < 0x1_0000_0000_0000_0000
  }

  lemma InRangeComparison(y: Cell, limit: u64)
    requires SameResidue(y.value, y.net) && InRange(y, limit)
    ensures y.value >= limit <==> y.net >= limit || y.net < 0
    ensures y.net >= 0 ==> y.value == y.net
  {
    var q: int :| Apart(y.value, y.net, q);
    assert q == 0 || q == 1;
  }

  lemma MoveKeepsWindow(v: View, m: Move, limit: u64)
    requires CanMove(v, m) && Balanced(v) && WindowBounded(v, limit) && InRange(v.cell, limit)
    requires m.Add? ==> m.limit == limit
    ensures WindowBounded(Apply(v, m), limit)
  {
    InRangeComparison(v.cell, limit);
  }

  // ── Runs with the flusher ─────────────────────────────────────────

  /** Every counter whose atomic operations and limit together fit in a u64 keeps `WindowBounded`. */
  ghost predicate WindowsBounded(s: State, limitOf: KeyId -> u64)
    requires WellFormed(s)
  {
    forall k | k in s.registry && s.cells[s.registry[k]].steps + limitOf(k) < U64_LIMIT ::
      WindowBounded(ViewOf(s, s.registry[k]), limitOf(k))
  }

  lemma StepKeepsKeyWindow(s: State, a: Action, k: KeyId, limitOf: KeyId -> u64)
    requires WellFormed(s) && Uniform(s, limitOf) && k in s.registry
    requires Balanced(ViewOf(s, s.registry[k])) && WindowBounded(ViewOf(s, s.registry[k]), limitOf(k))
    requires InRange(s.cells[s.registry[k]], limitOf(k))
    ensures s.registry[k] < |Step(s, a).cells|
    ensures WindowBounded(ViewOf(Step(s, a), s.registry[k]), limitOf(k))
  {
    var x := s.registry[k];
    StepMoves(s, a, x);
    ChargedAtOwnLimit(s, a, k, limitOf);
    MoveKeepsWindow(ViewOf(s, x), MoveOf(s, a, x), limitOf(k));
  }

  lemma StepsGrow(s: State, a: Action, x: nat)
    requires x < |s.cells|
    ensures x < |Step(s, a).cells| && s.cells[x].steps <= Step(s, a).cells[x].steps
  {
  }

  lemma StepKeepsWindows(s: State, a: Action, limitOf: KeyId -> u64)
    requires WellFormed(s) && AllBalanced(s) && Uniform(s, limitOf) && WindowsBounded(s, limitOf)
    ensures WellFormed(Step(s, a)) && WindowsBounded(Step(s, a), limitOf)
  {
    StepKeepsWellFormed(s, a);
    var t := Step(s, a);
    forall k | k in t.registry && t.cells[t.registry[k]].steps + limitOf(k) < U64_LIMIT
      ensures WindowBounded(ViewOf(t, t.registry[k]), limitOf(k))
    {
      var x := t.registry[k];
      if k in s.registry {
        StepsGrow(s, a, x);
        assert Balanced(ViewOf(s, x));
        StepKeepsKeyWindow(s, a, k, limitOf);
      } else {
        StepCreates(s, a, x);
      }
    }
  }

  lemma {:induction false} RunKeepsWindows(s: State, actions: seq<Action>, limitOf: KeyId -> u64)
    requires WellFormed(s) && AllBalanced(s) && Uniform(s, limitOf) && WindowsBounded(s, limitOf)
    requires LimitsAgree(actions, limitOf)
    ensures WellFormed(Run(s, actions)) && AllBalanced(Run(s, actions)) && WindowsBounded(Run(s, actions), limitOf)
    decreases |actions|
  {
    if actions != [] {
      StepKeepsBalanced(s, actions[0]);
      StepKeepsUniform(s, actions[0], limitOf);
      StepKeepsWindows(s, actions[0], limitOf);
      RunKeepsWindows(Step(s, actions[0]), actions[1..], limitOf);
    }
  }

  lemma WindowFacts(v: View, limit: u64)
    requires Balanced(v) && WindowBounded(v, limit) && InRange(v.cell, limit)
    ensures v.cell.value < limit <==> 0 <= v.cell.window + v.pending + v.cell.addedBack - v.cell.caught < limit
    ensures v.cell.dirtySwaps == 0 ==>
              && v.cell.net >= 0 && v.cell.value == v.cell.net && v.cell.window <= limit
              && (v.cell.value >= limit <==> v.cell.window + v.cell.addedBack >= limit)
  {
    InRangeComparison(v.cell, limit);
  }

  lemma {:induction false} KeyBounded(n: nat, actions: seq<Action>, limitOf: KeyId -> u64, k: KeyId)
    requires LimitsAgree(actions, limitOf)
    requires k in Run(Start(n), actions).registry
    requires var s := Run(Start(n), actions);
             s.registry[k] < |s.cells| && s.cells[s.registry[k]].steps + limitOf(k) < U64_LIMIT
    ensures var s := Run(Start(n), actions);
            var v := ViewOf(s, s.registry[k]);
            Balanced(v) && WindowBounded(v, limitOf(k)) && InRange(v.cell, limitOf(k))
  {
    RunKeepsWindows(Start(n), actions, limitOf);
    var s := Run(Start(n), actions);
    assert Balanced(ViewOf(s, s.registry[k]));
  }

  /**
   Quota with the flusher running, for every schedule in which the operations on the counter and its limit
   fit in a u64, and for every window, whatever its swap found.
   (1) The exact count is the window's admissions and pending refusals, plus what a failed send returned, less the
       refusals its swap caught.
   (2) A request charged now is let through exactly when that count is at least zero and below the limit.
   (3) The window admits at most the limit, the caught refusals, and what a failed send took off the counter.
   (4) While no swap ever caught a refusal the count is never negative, each window admits at most
       `limit`, and a request is turned away exactly when the window's own requests and
       what failed sends returned have already reached the limit.
   `WindowReach` says which windows (3) lets grow over the limit.
   */
  lemma {:induction false} QuotaUnderFlushing(n: nat, actions: seq<Action>, limitOf: KeyId -> u64, k: KeyId)
    requires LimitsAgree(actions, limitOf)
    requires k in Run(Start(n), actions).registry
    requires var s := Run(Start(n), actions);
             s.registry[k] < |s.cells| && s.cells[s.registry[k]].steps + limitOf(k) < U64_LIMIT
    ensures var s := Run(Start(n), actions);
            var y, pending := s.cells[s.registry[k]], Pending(s, s.registry[k]);
            && y.net == y.window + pending + y.addedBack - y.caught
            && (y.value < limitOf(k) <==> 0 <= y.window + pending + y.addedBack - y.caught < limitOf(k))
            && y.window <= limitOf(k) + y.caught + Max(0, -y.addedBack)
            && (y.dirtySwaps == 0 ==>
                  && y.net >= 0 && y.value == y.net && y.window <= limitOf(k)
                  && (y.value >= limitOf(k) <==> y.window + y.addedBack >= limitOf(k)))
  {
    KeyBounded(n, actions, limitOf, k);
    var s := Run(Start(n), actions);
    WindowFacts(ViewOf(s, s.registry[k]), limitOf(k));
  }

  /**
   The condition in (4) cannot be weakened: after any swap that does find a refusal waiting, letting that
   refusal subtract wraps the counter to 2^64 - 1, so an empty window turns every request away.
   */
  lemma {:induction false} DirtySwapWraps(s: State, k: KeyId, c: nat, limit: u64)
    requires Enabled(s, Swap(k)) && c < |s.conns| && s.conns[c].phase == Over(s.registry[k])
    ensures s.registry[k] < |Run(s, [Swap(k), FetchSub(c)]).cells|
    ensures var y := Run(s, [Swap(k), FetchSub(c)]).cells[s.registry[k]];
            && y.window == 0 && y.addedBack == 0 && y.net == -1
            && y.value == U64_LIMIT - 1 && y.value >= limit
            && y.dirtySwaps == s.cells[s.registry[k]].dirtySwaps + 1
  {
    assert c in WaitingOn(s.conns, s.registry[k]);
    assert Pending(s, s.registry[k]) > 0;
    var m := Step(s, Swap(k));
    assert Run(s, [Swap(k), FetchSub(c)]) == Step(m, FetchSub(c)) by {
      assert [Swap(k), FetchSub(c)][1..] == [FetchSub(c)];
      assert [FetchSub(c)][1..] == [];
      assert Run(m, [FetchSub(c)]) == Run(Step(m, FetchSub(c)), []);
    }
  }

  // ── Runs without the flusher ──────────────────────────────────────

  /** No counter was ever drained. */
  predicate Undrained(v: View, limit: u64) {
    && v.held.Nothing?
    && v.cell.sent == 0 && v.cell.ackedNet == 0 && v.cell.dirtySwaps == 0 && v.cell.addedBack == 0 && v.cell.caught == 0
    && v.cell.window == v.cell.admitted
    && (v.cell.refused > 0 ==> v.cell.admitted == limit)
  }

  lemma MoveKeepsUndrained(v: View, m: Move, limit: u64)
    requires CanMove(v, m) && Balanced(v) && WindowBounded(v, limit) && InRange(v.cell, limit) && Undrained(v, limit)
    requires m.Stay? || m.Sub? || m == Add(limit)
    ensures Undrained(Apply(v, m), limit)
  {
    InRangeComparison(v.cell, limit);
  }

  ghost predicate NeverFlushed(s: State, limitOf: KeyId -> u64)
    requires WellFormed(s)
  {
    && s.flusher.Sleeping?
    && forall k | k in s.registry && limitOf(k) + |s.conns| < U64_LIMIT ::
         WindowBounded(ViewOf(s, s.registry[k]), limitOf(k)) && Undrained(ViewOf(s, s.registry[k]), limitOf(k))
  }

  lemma StepKeepsUndrained(s: State, a: Action, limitOf: KeyId -> u64, k: KeyId)
    requires WellFormed(s) && AllBalanced(s) && Uniform(s, limitOf) && NeverFlushed(s, limitOf)
    requires !IsFlusherAction(a) && k in s.registry && limitOf(k) + |s.conns| < U64_LIMIT
    ensures s.registry[k] < |Step(s, a).cells|
    ensures var v := ViewOf(Step(s, a), s.registry[k]); WindowBounded(v, limitOf(k)) && Undrained(v, limitOf(k))
  {
    var x := s.registry[k];
    StepMoves(s, a, x);
    ChargedAtOwnLimit(s, a, k, limitOf);
    PendingAtMostConnections(s, x);
    var v, m := ViewOf(s, x), MoveOf(s, a, x);
    assert Balanced(v) && Undrained(v, limitOf(k));
    MoveKeepsWindow(v, m, limitOf(k));
    MoveKeepsUndrained(v, m, limitOf(k));
  }

  lemma StepKeepsNeverFlushed(s: State, a: Action, limitOf: KeyId -> u64)
    requires WellFormed(s) && AllBalanced(s) && Uniform(s, limitOf) && NeverFlushed(s, limitOf)
    requires !IsFlusherAction(a)
    ensures WellFormed(Step(s, a)) && NeverFlushed(Step(s, a), limitOf)
  {
    StepKeepsWellFormed(s, a);
    var t := Step(s, a);
    forall k | k in t.registry && limitOf(k) + |t.conns| < U64_LIMIT
      ensures WindowBounded(ViewOf(t, t.registry[k]), limitOf(k)) && Undrained(ViewOf(t, t.registry[k]), limitOf(k))
    {
      if k in s.registry {
        StepKeepsUndrained(s, a, limitOf, k);
      } else {
        StepCreates(s, a, t.registry[k]);
      }
    }
  }

  lemma {:induction false} RunKeepsNeverFlushed(s: State, actions: seq<Action>, limitOf: KeyId -> u64)
    requires WellFormed(s) && AllBalanced(s) && Uniform(s, limitOf) && NeverFlushed(s, limitOf)
    requires LimitsAgree(actions, limitOf)
    requires forall i | 0 <= i < |actions| :: !IsFlusherAction(actions[i])
    ensures WellFormed(Run(s, actions)) && AllBalanced(Run(s, actions)) && NeverFlushed(Run(s, actions), limitOf)
    ensures |Run(s, actions).conns| == |s.conns|
    decreases |actions|
  {
    if actions != [] {
      StepKeepsWellFormed(s, actions[0]);
      StepKeepsBalanced(s, actions[0]);
      StepKeepsUniform(s, actions[0], limitOf);
      StepKeepsNeverFlushed(s, actions[0], limitOf);
      RunKeepsNeverFlushed(Step(s, actions[0]), actions[1..], limitOf);
    }
  }

  /**
   At most `limit` admitted; a charge is refused now exactly when `limit` are admitted, and if one ever was they are;
   with no refusal under way the counter is the number admitted, the smaller of requests and limit.
   */
  predicate ExactlyLimited(v: View, limit: u64) {
    && v.cell.admitted <= limit
    && v.cell.value == v.cell.admitted + v.pending
    && (v.cell.value >= limit <==> v.cell.admitted == limit)
    && (v.cell.refused + v.pending > 0 ==> v.cell.admitted == limit)
    && (v.pending == 0 ==>
          v.cell.value == v.cell.admitted && v.cell.admitted == Min(v.cell.admitted + v.cell.refused, limit))
  }

  lemma UndrainedFacts(v: View, limit: u64)
    requires Balanced(v) && WindowBounded(v, limit) && Undrained(v, limit) && limit + v.pending < U64_LIMIT
    ensures ExactlyLimited(v, limit)
  {
    InRangeComparison(v.cell, limit);
  }

  lemma KeyUndrained(s: State, limitOf: KeyId -> u64, k: KeyId)
    requires WellFormed(s) && AllBalanced(s) && NeverFlushed(s, limitOf)
    requires k in s.registry && limitOf(k) + |s.conns| < U64_LIMIT
    ensures var v := ViewOf(s, s.registry[k]);
            && Balanced(v) && WindowBounded(v, limitOf(k)) && Undrained(v, limitOf(k))
            && limitOf(k) + v.pending < U64_LIMIT
  {
    PendingAtMostConnections(s, s.registry[k]);
  }

  /**
   Exact quota. With no flush in between, under every interleaving of `n` connections that share the key, as
   long as the limit plus `n` fits in a u64: no more than `limit` requests are admitted; a
   connection about to charge is turned away exactly when `limit` requests are already admitted, so other
   connections' transient increments never cause a refusal; and when no refusal is under way
   the counter is the number admitted, which is the smaller of the requests made and the limit.
   */
  lemma {:induction false} ExactQuota(n: nat, actions: seq<Action>, limitOf: KeyId -> u64, k: KeyId)
    requires LimitsAgree(actions, limitOf)
    requires forall i | 0 <= i < |actions| :: !IsFlusherAction(actions[i])
    requires k in Run(Start(n), actions).registry && limitOf(k) + n < U64_LIMIT
    ensures var s := Run(Start(n), actions);
            s.registry[k] < |s.cells| && ExactlyLimited(ViewOf(s, s.registry[k]), limitOf(k))
  {
    RunKeepsNeverFlushed(Start(n), actions, limitOf);
    var s := Run(Start(n), actions);
    KeyUndrained(s, limitOf, k);
    UndrainedFacts(ViewOf(s, s.registry[k]), limitOf(k));
  }
}
