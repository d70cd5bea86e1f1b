/** Connections of one key under different limits: after a reload of the keys, or two secrets with one key id. */
module QuotaLimits {
  import opened Basics
  import opened Quota
  import opened QuotaProofs
  import opened QuotaSchedules

  /** No connection ever authenticates as `k` with a higher limit. */
  ghost predicate LimitsBelow(actions: seq<Action>, k: KeyId, most: u64) {
    forall i | 0 <= i < |actions| :: BelowFor(actions[i], k, most)
  }

  predicate BelowFor(a: Action, k: KeyId, most: u64) {
    a.Auth? && a.key == k ==> a.limit <= most
  }

  predicate ConnsBelow(s: State, k: KeyId, most: u64) {
    forall c | 0 <= c < |s.conns| :: s.conns[c].key == k ==> s.conns[c].limit <= most
  }

  /** A counter that was never drained, with no more let through than the highest limit. */
  predicate Plain(v: View, most: u64) {
    && v.held.Nothing? && v.cell.addedBack == 0 && v.cell.caught == 0 && v.cell.window == v.cell.admitted
    && v.cell.admitted <= most
  }

  ghost predicate Unflushed(s: State, k: KeyId, most: u64)
    requires WellFormed(s)
  {
    s.flusher.Sleeping? && ConnsBelow(s, k, most) && (k in s.registry ==> Plain(ViewOf(s, s.registry[k]), most))
  }

  /** The wrapped counter is then the exact one. */
  lemma PlainCounts(v: View, most: u64)
    requires Balanced(v) && Plain(v, most) && most + v.pending < U64_LIMIT
    ensures v.cell.value == v.cell.admitted + v.pending
  {
    InRangeComparison(v.cell, most);
  }

  lemma MoveKeepsPlain(v: View, m: Move, most: u64)
    requires CanMove(v, m) && Balanced(v) && Plain(v, most) && most + v.pending < U64_LIMIT
    requires m.Stay? || m.Sub? || (m.Add? && m.limit <= most)
    ensures Plain(Apply(v, m), most)
  {
    PlainCounts(v, most);
  }

  lemma StepKeepsPlain(s: State, a: Action, k: KeyId, most: u64)
    requires WellFormed(s) && AllBalanced(s) && Unflushed(s, k, most) && most + |s.conns| < U64_LIMIT
    requires !IsFlusherAction(a) && k in s.registry
    ensures s.registry[k] < |Step(s, a).cells| && Plain(ViewOf(Step(s, a), s.registry[k]), most)
  {
    var x := s.registry[k];
    StepMoves(s, a, x);
    PendingAtMostConnections(s, x);
    assert Balanced(ViewOf(s, x));
    if MoveOf(s, a, x).Add? {
      assert HoldsItsCounter(s, s.conns[a.c]);
    }
    MoveKeepsPlain(ViewOf(s, x), MoveOf(s, a, x), most);
  }

  lemma StepKeepsBelow(s: State, a: Action, k: KeyId, most: u64)
    requires ConnsBelow(s, k, most) && BelowFor(a, k, most) && !IsFlusherAction(a)
    ensures ConnsBelow(Step(s, a), k, most) && Step(s, a).flusher == s.flusher
  {
  }

  lemma StepKeepsUnflushed(s: State, a: Action, k: KeyId, most: u64)
    requires WellFormed(s) && AllBalanced(s) && Unflushed(s, k, most) && most + |s.conns| < U64_LIMIT
    requires !IsFlusherAction(a) && BelowFor(a, k, most)
    ensures WellFormed(Step(s, a)) && Unflushed(Step(s, a), k, most)
  {
    var t := Step(s, a);
    StepKeepsWellFormed(s, a);
    StepKeepsBelow(s, a, k, most);
    if k in s.registry {
      StepKeepsPlain(s, a, k, most);
    } else if k in t.registry {
      StepCreates(s, a, t.registry[k]);
    }
  }

  lemma {:induction false} RunKeepsUnflushed(s: State, actions: seq<Action>, k: KeyId, most: u64)
    requires WellFormed(s) && AllBalanced(s) && Unflushed(s, k, most) && most + |s.conns| < U64_LIMIT
    requires LimitsBelow(actions, k, most) && forall i | 0 <= i < |actions| :: !IsFlusherAction(actions[i])
    ensures var t := Run(s, actions);
            WellFormed(t) && AllBalanced(t) && Unflushed(t, k, most) && |t.conns| == |s.conns|
    decreases |actions|
  {
    if actions != [] {
      StepKeepsWellFormed(s, actions[0]);
      StepKeepsBalanced(s, actions[0]);
      StepKeepsUnflushed(s, actions[0], k, most);
      RunKeepsUnflushed(Step(s, actions[0]), actions[1..], k, most);
    }
  }

  /** The charge of connection `c` is turned away although fewer requests than its own limit were let through. */
  predicate TurnedAwayEarly(s: State, c: nat)
    requires Enabled(s, FetchAdd(c))
  {
    var x := s.conns[c].phase.cell;
    Step(s, FetchAdd(c)).conns[c].phase.Over? && s.cells[x].admitted < s.conns[c].limit
  }

  /**
   Quota without a flush, whatever limits the connections of one key carry, as long as the highest plus the number of
   connections fits in a u64. No more than the highest limit are let through; the counter is the number let through plus the
   refusals still to subtract; so a charge passes exactly when that is below its own limit, and is turned away early
   exactly when its limit lies above the number let through but not above the two together.
   */
  lemma {:induction false} MixedLimits(n: nat, actions: seq<Action>, k: KeyId, most: u64, c: nat)
    requires LimitsBelow(actions, k, most) && forall i | 0 <= i < |actions| :: !IsFlusherAction(actions[i])
    requires most + n < U64_LIMIT
    ensures var s := Run(Start(n), actions);
            k in s.registry ==>
              && s.registry[k] < |s.cells|
              && var y, pending := s.cells[s.registry[k]], Pending(s, s.registry[k]);
                 && y.admitted <= most && y.value == y.admitted + pending
                 && (Enabled(s, FetchAdd(c)) && s.conns[c].key == k ==>
                       && (Step(s, FetchAdd(c)).conns[c].phase.Idle? <==> y.admitted + pending < s.conns[c].limit)
                       && (TurnedAwayEarly(s, c) <==> y.admitted < s.conns[c].limit <= y.admitted + pending))
  {
    RunKeepsUnflushed(Start(n), actions, k, most);
    var s := Run(Start(n), actions);
    if k in s.registry {
      var x := s.registry[k];
      PendingAtMostConnections(s, x);
      assert Balanced(ViewOf(s, x));
      PlainCounts(ViewOf(s, x), most);
      if Enabled(s, FetchAdd(c)) && s.conns[c].key == k {
        assert HoldsItsCounter(s, s.conns[c]);
      }
    }
  }

  // ── Early refusals happen ─────────────────────────────────────────

  /** Three connections of key "k", the third with a limit of two, and its counter. */
  function Trio(y: Cell, p: Phase, q: Phase, r: Phase): State {
    State(map["k" := 0], [y], [Conn("k", 1, p), Conn("k", 1, q), Conn("k", 2, r)], Sleeping)
  }

  const ENTER: seq<Action> := [Auth(0, "k", 1), Auth(1, "k", 1), Auth(2, "k", 2), Lookup(0), Insert(0)]
  const CROWD: seq<Action> := [FetchAdd(0), Lookup(1), FetchAdd(1), Lookup(2)]

  lemma EnterRun()
    ensures Run(Start(3), ENTER) == Trio(FRESH_CELL, Found(0), Idle, Idle)
  {
    var blank, one, two := Conn("", 0, Idle), Conn("k", 1, Idle), Conn("k", 2, Idle);
    var s0 := State(map[], [], [blank, blank, blank], Sleeping);
    var s1 := s0.(conns := [one, blank, blank]);
    var s2 := s0.(conns := [one, one, blank]);
    var s3 := s0.(conns := [one, one, two]);
    var s4 := s0.(conns := [Conn("k", 1, Missed), one, two]);
    var s5 := Trio(FRESH_CELL, Found(0), Idle, Idle);
    assert Start(3) == s0;
    assert Step(s0, Auth(0, "k", 1)) == s1;
    assert Step(s1, Auth(1, "k", 1)) == s2;
    assert Step(s2, Auth(2, "k", 2)) == s3;
    assert Step(s3, Lookup(0)) == s4;
    assert Step(s4, Insert(0)) == s5;
    RunAlong([s0, s1, s2, s3, s4, s5], ENTER);
  }

  lemma CrowdRun()
    ensures Run(Trio(FRESH_CELL, Found(0), Idle, Idle), CROWD) == Trio(CHARGED, Idle, Over(0), Found(0))
  {
    var y := AddTo(FRESH_CELL, 1);
    var s0 := Trio(FRESH_CELL, Found(0), Idle, Idle);
    var s1, s2 := Trio(y, Idle, Idle, Idle), Trio(y, Idle, Found(0), Idle);
    var s3, s4 := Trio(CHARGED, Idle, Over(0), Idle), Trio(CHARGED, Idle, Over(0), Found(0));
    assert Step(s0, FetchAdd(0)) == s1;
    assert Step(s1, Lookup(1)) == s2;
    assert AddTo(y, 1) == CHARGED;
    assert Step(s2, FetchAdd(1)) == s3;
    assert Step(s3, Lookup(2)) == s4;
    RunAlong([s0, s1, s2, s3, s4], CROWD);
  }

  /** With limits one and two on one key, a request is turned away at two although only one was let through. */
  lemma TwoLimitsTurnAwayEarly()
    ensures var s := Run(Start(3), ENTER + CROWD);
            && s.registry == map["k" := 0] && |s.cells| == 1 && s.cells[0].admitted == 1
            && Enabled(s, FetchAdd(2)) && s.conns[2].limit == 2 && TurnedAwayEarly(s, 2)
  {
    RunConcat(Start(3), ENTER, CROWD);
    EnterRun();
    CrowdRun();
  }
}
