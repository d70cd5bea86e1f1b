/**
 How far a window can grow. From any moment of any run the gate alone, without another swap, can fill the window to the
 limit plus what the swap caught less what a failed send returned, or not at all; the count without its
 pending refusals and the number of connections that can go on decide which.
 */
module QuotaReach {
  import opened Basics
  import opened Quota
  import opened QuotaProofs

  ghost predicate GateOnly(more: seq<Action>, limitOf: KeyId -> u64) {
    LimitsAgree(more, limitOf) && forall i | 0 <= i < |more| :: !IsFlusherAction(more[i])
  }

  function CellOf(s: State, k: KeyId): Cell
    requires k in s.registry && s.registry[k] < |s.cells|
  {
    s.cells[s.registry[k]]
  }

  /** The exact count once all pending refusals have subtracted. */
  function Base(y: Cell): int { y.window + y.addedBack - y.caught }

  /** What the window can be filled to. */
  function Top(y: Cell, limit: u64): int { limit + y.caught - y.addedBack }

  /** The connection waits for the write lock, which the flusher's read guard excludes. */
  predicate Stuck(s: State, c: nat)
    requires c < |s.conns|
  {
    s.conns[c].phase.Missed? && !WriteLockFree(s)
  }

  /** The connections that can go on before the flusher does. */
  function Usable(s: State): set<nat> {
    set c: nat | c < |s.conns| && !Stuck(s, c)
  }

  /** Another request can be let through: the base is below the limit, and enough connections can lift it to zero. */
  predicate CanGrow(y: Cell, limit: u64, usable: nat) {
    0 < limit && Base(y) < limit && Max(0, -Base(y)) < usable
  }

  function Cap(y: Cell, limit: u64, usable: nat): int {
    if CanGrow(y, limit, usable) then Top(y, limit) else y.window
  }

  // ── No further than that ──────────────────────────────────────────

  /**
   What every gate-only continuation of `y0` keeps: the flusher's marks, the window between its start and `cap`, and
   every connection outside `usable` stuck.
   */
  ghost predicate Capped(s: State, k: KeyId, limitOf: KeyId -> u64, y0: Cell, cap: int, usable: set<nat>) {
    && WellFormed(s) && AllBalanced(s) && Uniform(s, limitOf) && k in s.registry
    && (forall c: nat | c < |s.conns| :: c in usable || Stuck(s, c))
    && var y := CellOf(s, k);
       y.caught == y0.caught && y.addedBack == y0.addedBack && y0.window <= y.window <= cap
  }

  /** The values stay in a range that a u64 can tell apart. */
  predicate Separated(y0: Cell, limit: u64, connections: nat) {
    limit - 0x1_0000_0000_0000_0000 <= Base(y0) && Max(Base(y0), limit) + connections < 0x1_0000_0000_0000_0000
  }

  lemma SubsetSize(a: set<nat>, b: set<nat>)
    requires a <= b
    ensures |a| <= |b|
  {
    assert b == a + (b - a);
  }

  /** A connection that is about to charge is not one that is waiting to subtract, and none of these is stuck. */
  lemma PendingBesides(s: State, c: nat, x: nat, usable: set<nat>)
    requires c < |s.conns| && s.conns[c].phase == Found(x)
    requires forall d: nat | d < |s.conns| :: d in usable || Stuck(s, d)
    ensures Pending(s, x) < |usable|
  {
    var waiting := WaitingOn(s.conns, x);
    assert c !in waiting;
    SubsetSize(waiting + {c}, usable);
  }

  /** One admission on a counter whose window stood at that of `y0`. */
  lemma AdmissionStaysCapped(v: View, y0: Cell, limit: u64, usable: nat)
    requires Balanced(v) && v.pending < usable && Separated(y0, limit, usable)
    requires v.cell.caught == y0.caught && v.cell.addedBack == y0.addedBack
    requires y0.window <= v.cell.window <= Cap(y0, limit, usable) && v.cell.value < limit
    ensures v.cell.window + 1 <= Cap(y0, limit, usable)
  {
    assert InRange(v.cell, limit);
    InRangeComparison(v.cell, limit);
  }

  lemma StuckStays(s: State, a: Action, usable: set<nat>)
    requires !IsFlusherAction(a) && forall c: nat | c < |s.conns| :: c in usable || Stuck(s, c)
    ensures forall c: nat | c < |Step(s, a).conns| :: c in usable || Stuck(Step(s, a), c)
  {
  }

  lemma StepStaysCapped(s: State, a: Action, k: KeyId, limitOf: KeyId -> u64, y0: Cell, usable: set<nat>)
    requires Capped(s, k, limitOf, y0, Cap(y0, limitOf(k), |usable|), usable)
    requires Separated(y0, limitOf(k), |usable|)
    requires !IsFlusherAction(a) && (a.Auth? ==> a.limit == limitOf(a.key))
    ensures Capped(Step(s, a), k, limitOf, y0, Cap(y0, limitOf(k), |usable|), usable)
  {
    var x := s.registry[k];
    var v, m := ViewOf(s, x), MoveOf(s, a, x);
    StepKeepsWellFormed(s, a);
    StepKeepsBalanced(s, a);
    StepKeepsUniform(s, a, limitOf);
    StuckStays(s, a, usable);
    StepMoves(s, a, x);
    ChargedAtOwnLimit(s, a, k, limitOf);
    assert Balanced(v);
    if m.Add? && v.cell.value < limitOf(k) {
      PendingBesides(s, a.c, x, usable);
      AdmissionStaysCapped(v, y0, limitOf(k), |usable|);
    }
  }

  lemma {:induction false} RunStaysCapped(s: State, more: seq<Action>, k: KeyId, limitOf: KeyId -> u64,
                                          y0: Cell, usable: set<nat>)
    requires Capped(s, k, limitOf, y0, Cap(y0, limitOf(k), |usable|), usable)
    requires Separated(y0, limitOf(k), |usable|) && GateOnly(more, limitOf)
    ensures Capped(Run(s, more), k, limitOf, y0, Cap(y0, limitOf(k), |usable|), usable)
    decreases |more|
  {
    if more != [] {
      StepStaysCapped(s, more[0], k, limitOf, y0, usable);
      RunStaysCapped(Step(s, more[0]), more[1..], k, limitOf, y0, usable);
    }
  }

  // ── Finishing what is under way ───────────────────────────────────

  lemma {:induction false} Reaches(s: State, a: seq<Action>, t: State, b: seq<Action>, u: State, limitOf: KeyId -> u64)
    requires Run(s, a) == t && Run(t, b) == u && GateOnly(a, limitOf) && GateOnly(b, limitOf)
    ensures Run(s, a + b) == u && GateOnly(a + b, limitOf)
  {
    RunConcat(s, a, b);
  }

  lemma {:induction false} RunOne(s: State, a: Action)
    ensures Run(s, [a]) == Step(s, a)
  {
    assert [a][1..] == [];
    assert Run(Step(s, a), []) == Step(s, a);
  }

  lemma {:induction false} RunTwo(s: State, a: Action, b: Action)
    ensures Run(s, [a, b]) == Step(Step(s, a), b)
  {
    RunOne(Step(s, a), b);
    assert [a, b][1..] == [b];
  }

  /** How many actions a connection is from idle. */
  function Distance(p: Phase): nat {
    match p
    case Idle => 0
    case Over(_) => 1
    case Found(_) => 2
    case Missed => 3
  }

  /** The next action of a connection that is not idle. */
  function Onward(c: nat, p: Phase): Action
    requires !p.Idle?
  {
    match p
    case Missed => Insert(c)
    case Found(_) => FetchAdd(c)
    case Over(_) => FetchSub(c)
  }

  /** Only connection `c` differs, and the flusher stands where it did. */
  predicate OnlyMoved(s: State, t: State, c: nat) {
    && t.flusher == s.flusher && |t.conns| == |s.conns|
    && forall d: nat | d < |s.conns| && d != c :: t.conns[d] == s.conns[d]
  }

  lemma OnwardMoves(s: State, c: nat)
    requires WellFormed(s) && c < |s.conns| && !s.conns[c].phase.Idle? && !Stuck(s, c)
    ensures var t := Step(s, Onward(c, s.conns[c].phase));
            WellFormed(t) && OnlyMoved(s, t, c) && Distance(t.conns[c].phase) < Distance(s.conns[c].phase) && !Stuck(t, c)
  {
    StepKeepsWellFormed(s, Onward(c, s.conns[c].phase));
    assert HoldsItsCounter(s, s.conns[c]);
  }

  lemma {:induction false} ToIdle(s: State, limitOf: KeyId -> u64, c: nat) returns (more: seq<Action>)
    requires WellFormed(s) && c < |s.conns| && !Stuck(s, c)
    ensures GateOnly(more, limitOf)
    ensures var t := Run(s, more); WellFormed(t) && OnlyMoved(s, t, c) && t.conns[c].phase.Idle?
    decreases Distance(s.conns[c].phase)
  {
    more := [];
    if !s.conns[c].phase.Idle? {
      var a := Onward(c, s.conns[c].phase);
      OnwardMoves(s, c);
      RunOne(s, a);
      more := ToIdle(Step(s, a), limitOf, c);
      Reaches(s, [a], Step(s, a), more, Run(Step(s, a), more), limitOf);
      more := [a] + more;
    }
  }

  /** The connection is idle on the key, or cannot move. */
  predicate Settled(s: State, k: KeyId, limit: u64, c: nat)
    requires c < |s.conns|
  {
    Stuck(s, c) || s.conns[c] == Conn(k, limit, Idle)
  }

  lemma {:induction false} SettleOne(s: State, k: KeyId, limitOf: KeyId -> u64, c: nat) returns (more: seq<Action>)
    requires WellFormed(s) && c < |s.conns| && !Stuck(s, c)
    ensures GateOnly(more, limitOf)
    ensures var t := Run(s, more); WellFormed(t) && OnlyMoved(s, t, c) && t.conns[c] == Conn(k, limitOf(k), Idle)
  {
    more := ToIdle(s, limitOf, c);
    var t := Run(s, more);
    var a := Auth(c, k, limitOf(k));
    StepKeepsWellFormed(t, a);
    RunOne(t, a);
    Reaches(s, more, t, [a], Step(t, a), limitOf);
    more := more + [a];
  }

  /** Everyone who can finishes, and authenticates with the key. */
  lemma {:induction false} Settle(s: State, k: KeyId, limitOf: KeyId -> u64, c: nat) returns (more: seq<Action>)
    requires WellFormed(s) && c <= |s.conns|
    requires forall d: nat | c <= d < |s.conns| :: Settled(s, k, limitOf(k), d)
    ensures GateOnly(more, limitOf)
    ensures var t := Run(s, more);
            && WellFormed(t) && t.flusher == s.flusher && |t.conns| == |s.conns| && Usable(t) == Usable(s)
            && forall d: nat | d < |t.conns| :: Settled(t, k, limitOf(k), d)
    decreases c
  {
    more := [];
    if c > 0 {
      if Stuck(s, c - 1) {
        more := Settle(s, k, limitOf, c - 1);
      } else {
        var one := SettleOne(s, k, limitOf, c - 1);
        var t := Run(s, one);
        assert Usable(t) == Usable(s);
        forall d: nat | c - 1 <= d < |t.conns| ensures Settled(t, k, limitOf(k), d) {
          assert d >= c ==> Settled(s, k, limitOf(k), d);
        }
        more := Settle(t, k, limitOf, c - 1);
        Reaches(s, one, t, more, Run(t, more), limitOf);
        more := one + more;
      }
    }
  }

  // ── And that far ──────────────────────────────────────────────────

  /** These connections are idle on the key. */
  predicate IdleOn(s: State, k: KeyId, limit: u64, crew: set<nat>) {
    && k in s.registry && s.registry[k] < |s.cells|
    && forall c | c in crew :: c < |s.conns| && s.conns[c] == Conn(k, limit, Idle)
  }

  /** The state with this counter for key `k` and some connections waiting to subtract from it. */
  function Line(s: State, k: KeyId, limit: u64, y: Cell, waiting: set<nat>): State
    requires k in s.registry && s.registry[k] < |s.cells|
  {
    var x := s.registry[k];
    s.(cells := s.cells[x := y],
       conns := seq(|s.conns|, c requires 0 <= c < |s.conns| =>
                      if c in waiting then Conn(k, limit, Over(x)) else s.conns[c]))
  }

  /** A connection of the crew charges. */
  lemma ChargeNext(s: State, k: KeyId, limitOf: KeyId -> u64, y: Cell, waiting: set<nat>, c: nat)
    requires k in s.registry && s.registry[k] < |s.cells| && limitOf(k) > 0
    requires c < |s.conns| && s.conns[c] == Conn(k, limitOf(k), Idle) && c !in waiting
    ensures GateOnly([Lookup(c), FetchAdd(c)], limitOf)
    ensures Run(Line(s, k, limitOf(k), y, waiting), [Lookup(c), FetchAdd(c)])
         == Line(s, k, limitOf(k), AddTo(y, limitOf(k)), if y.value >= limitOf(k) then waiting + {c} else waiting)
  {
    var x, limit := s.registry[k], limitOf(k);
    var from := Line(s, k, limit, y, waiting);
    var found := SetPhase(from, c, Found(x));
    var to := Line(s, k, limit, AddTo(y, limit), if y.value >= limit then waiting + {c} else waiting);
    assert Step(from, Lookup(c)) == found;
    assert Step(found, FetchAdd(c)).conns == to.conns;
    assert Step(found, FetchAdd(c)) == to;
    RunTwo(from, Lookup(c), FetchAdd(c));
  }

  /** A connection that waits subtracts. */
  lemma ReleaseOne(s: State, k: KeyId, limitOf: KeyId -> u64, y: Cell, waiting: set<nat>, c: nat)
    requires k in s.registry && s.registry[k] < |s.cells|
    requires c < |s.conns| && s.conns[c] == Conn(k, limitOf(k), Idle) && c in waiting
    ensures GateOnly([FetchSub(c)], limitOf)
    ensures Run(Line(s, k, limitOf(k), y, waiting), [FetchSub(c)]) == Line(s, k, limitOf(k), SubFrom(y), waiting - {c})
  {
    var from, to := Line(s, k, limitOf(k), y, waiting), Line(s, k, limitOf(k), SubFrom(y), waiting - {c});
    assert Step(from, FetchSub(c)).conns == to.conns;
    RunOne(from, FetchSub(c));
  }

  /** A counter whose exact count is where it can be compared. */
  ghost predicate Countable(y: Cell, limit: u64) {
    SameResidue(y.value, y.net) && InRange(y, limit)
  }

  /** What charging and subtracting leave alone. */
  predicate SameWindow(y: Cell, z: Cell) { z.caught == y.caught && z.addedBack == y.addedBack }

  lemma CountsOn(y: Cell, limit: u64)
    requires SameResidue(y.value, y.net)
    ensures SameResidue(AddTo(y, limit).value, AddTo(y, limit).net) && SameResidue(SubFrom(y).value, SubFrom(y).net)
  {
    IncResidue(y.value, y.net);
    DecResidue(y.value, y.net);
  }

  lemma OneMore(waiting: set<nat>, crew: set<nat>) returns (c: nat)
    requires waiting <= crew && |waiting| < |crew|
    ensures c in crew && c !in waiting && |waiting + {c}| == |waiting| + 1
  {
    assert crew == waiting + (crew - waiting);
    c :| c in crew - waiting;
  }

  /** Connections charge one after the other while the count is below zero: it rises to zero, all of them waiting. */
  lemma {:induction false} LiftToZero(s: State, k: KeyId, limitOf: KeyId -> u64, crew: set<nat>, y: Cell, waiting: set<nat>)
      returns (more: seq<Action>, z: Cell, all: set<nat>)
    requires IdleOn(s, k, limitOf(k), crew) && limitOf(k) > 0 && waiting <= crew
    requires SameResidue(y.value, y.net) && limitOf(k) - U64_LIMIT <= y.net <= 0 && |waiting| - y.net <= |crew|
    ensures GateOnly(more, limitOf) && all <= crew && |all| == |waiting| - y.net
    ensures Run(Line(s, k, limitOf(k), y, waiting), more) == Line(s, k, limitOf(k), z, all)
    ensures SameWindow(y, z) && z.window == y.window && z.net == 0 && SameResidue(z.value, z.net)
    decreases -y.net
  {
    more, z, all := [], y, waiting;
    if y.net < 0 {
      var c := OneMore(waiting, crew);
      InRangeComparison(y, limitOf(k));
      CountsOn(y, limitOf(k));
      ChargeNext(s, k, limitOf, y, waiting, c);
      more, z, all := LiftToZero(s, k, limitOf, crew, AddTo(y, limitOf(k)), waiting + {c});
      Reaches(Line(s, k, limitOf(k), y, waiting), [Lookup(c), FetchAdd(c)],
              Line(s, k, limitOf(k), AddTo(y, limitOf(k)), waiting + {c}), more, Line(s, k, limitOf(k), z, all), limitOf);
      more := [Lookup(c), FetchAdd(c)] + more;
    }
  }

  /** All waiting connections subtract. */
  lemma {:induction false} ReleaseAll(s: State, k: KeyId, limitOf: KeyId -> u64, crew: set<nat>, y: Cell, waiting: set<nat>)
      returns (more: seq<Action>, z: Cell)
    requires IdleOn(s, k, limitOf(k), crew) && waiting <= crew && SameResidue(y.value, y.net)
    ensures GateOnly(more, limitOf)
    ensures Run(Line(s, k, limitOf(k), y, waiting), more) == Line(s, k, limitOf(k), z, {})
    ensures SameWindow(y, z) && z.window == y.window && z.net == y.net - |waiting| && SameResidue(z.value, z.net)
    decreases |waiting|
  {
    more, z := [], y;
    if waiting != {} {
      var c :| c in waiting;
      CountsOn(y, limitOf(k));
      ReleaseOne(s, k, limitOf, y, waiting, c);
      more, z := ReleaseAll(s, k, limitOf, crew, SubFrom(y), waiting - {c});
      Reaches(Line(s, k, limitOf(k), y, waiting), [FetchSub(c)],
              Line(s, k, limitOf(k), SubFrom(y), waiting - {c}), more, Line(s, k, limitOf(k), z, {}), limitOf);
      more := [FetchSub(c)] + more;
    }
  }

  /** With nobody waiting: the count is below the limit, and a crew large enough to lift it to zero. */
  predicate Open(y: Cell, limit: u64, crew: nat) { 0 < limit && y.net < limit && Max(0, -y.net) < crew }

  /** One more request is let through, all connections ending idle. */
  lemma {:induction false} AdmitOne(s: State, k: KeyId, limitOf: KeyId -> u64, crew: set<nat>, y: Cell)
      returns (more: seq<Action>, z: Cell)
    requires IdleOn(s, k, limitOf(k), crew) && Countable(y, limitOf(k)) && Open(y, limitOf(k), |crew|)
    ensures GateOnly(more, limitOf)
    ensures Run(Line(s, k, limitOf(k), y, {}), more) == Line(s, k, limitOf(k), z, {})
    ensures SameWindow(y, z) && z.window == y.window + 1 && z.net == y.net + 1 && SameResidue(z.value, z.net)
  {
    var limit := limitOf(k);
    var up, zero, all := [], y, {};
    if y.net < 0 { up, zero, all := LiftToZero(s, k, limitOf, crew, y, {}); }
    var c := OneMore(all, crew);
    InRangeComparison(zero, limit);
    CountsOn(zero, limit);
    ChargeNext(s, k, limitOf, zero, all, c);
    var one := AddTo(zero, limit);
    Reaches(Line(s, k, limit, y, {}), up, Line(s, k, limit, zero, all), [Lookup(c), FetchAdd(c)],
            Line(s, k, limit, one, all), limitOf);
    var down;
    down, z := ReleaseAll(s, k, limitOf, crew, one, all);
    more := up + [Lookup(c), FetchAdd(c)];
    Reaches(Line(s, k, limit, y, {}), more, Line(s, k, limit, one, all), down, Line(s, k, limit, z, {}), limitOf);
    more := more + down;
  }

  /** Requests are let through one after the other until the count is at the limit. */
  lemma {:induction false} Fill(s: State, k: KeyId, limitOf: KeyId -> u64, crew: set<nat>, y: Cell)
      returns (more: seq<Action>, z: Cell)
    requires IdleOn(s, k, limitOf(k), crew) && Countable(y, limitOf(k)) && Open(y, limitOf(k), |crew|)
    ensures GateOnly(more, limitOf)
    ensures Run(Line(s, k, limitOf(k), y, {}), more) == Line(s, k, limitOf(k), z, {})
    ensures SameWindow(y, z) && z.window == y.window + limitOf(k) - y.net
    decreases limitOf(k) - y.net
  {
    more, z := AdmitOne(s, k, limitOf, crew, y);
    if z.net < limitOf(k) {
      var rest, last := Fill(s, k, limitOf, crew, z);
      Reaches(Line(s, k, limitOf(k), y, {}), more, Line(s, k, limitOf(k), z, {}), rest,
              Line(s, k, limitOf(k), last, {}), limitOf);
      more, z := more + rest, last;
    }
  }

  // ── The two together ──────────────────────────────────────────────

  ghost predicate CanReach(s: State, k: KeyId, limitOf: KeyId -> u64, window: int) {
    exists more :: GateOnly(more, limitOf) && WindowIs(Run(s, more), k, window)
  }

  predicate WindowIs(s: State, k: KeyId, window: int) {
    k in s.registry && s.registry[k] < |s.cells| && s.cells[s.registry[k]].window == window
  }

  /** A state of a run whose limits agree, with values a u64 can tell apart. */
  ghost predicate Tellable(s: State, k: KeyId, limitOf: KeyId -> u64) {
    && WellFormed(s) && AllBalanced(s) && Uniform(s, limitOf) && k in s.registry
    && Separated(CellOf(s, k), limitOf(k), |Usable(s)|)
  }

  lemma {:induction false} NeverBeyondCap(s: State, k: KeyId, limitOf: KeyId -> u64, more: seq<Action>)
    requires Tellable(s, k, limitOf) && GateOnly(more, limitOf)
    ensures var y, t := CellOf(s, k), Run(s, more);
            Capped(t, k, limitOf, y, Cap(y, limitOf(k), |Usable(s)|), Usable(s))
  {
    var y := CellOf(s, k);
    RunStaysCapped(s, more, k, limitOf, y, Usable(s));
  }

  /** Once everyone who can has finished, nobody waits to subtract, and the count is the base. */
  lemma SettledCounts(s: State, k: KeyId, limit: u64)
    requires WellFormed(s) && AllBalanced(s) && k in s.registry
    requires forall c: nat | c < |s.conns| :: Settled(s, k, limit, c)
    ensures var y := CellOf(s, k); SameResidue(y.value, y.net) && y.net == Base(y)
    ensures IdleOn(s, k, limit, Usable(s)) && Line(s, k, limit, CellOf(s, k), {}) == s
  {
    assert Balanced(ViewOf(s, s.registry[k]));
    forall c: nat | c < |s.conns| ensures !s.conns[c].phase.Over? {
      assert Settled(s, k, limit, c);
    }
    forall c | c in Usable(s) ensures s.conns[c] == Conn(k, limit, Idle) {
      assert Settled(s, k, limit, c);
    }
    assert WaitingOn(s.conns, s.registry[k]) == {};
    assert Line(s, k, limit, CellOf(s, k), {}).conns == s.conns;
  }

  /** From there the window goes on to the limit, if it can. */
  lemma {:induction false} FillSettled(s: State, k: KeyId, limitOf: KeyId -> u64) returns (more: seq<Action>)
    requires Tellable(s, k, limitOf) && forall c: nat | c < |s.conns| :: Settled(s, k, limitOf(k), c)
    ensures GateOnly(more, limitOf)
    ensures WindowIs(Run(s, more), k, Cap(CellOf(s, k), limitOf(k), |Usable(s)|))
  {
    var y := CellOf(s, k);
    SettledCounts(s, k, limitOf(k));
    more := [];
    if CanGrow(y, limitOf(k), |Usable(s)|) {
      var z;
      more, z := Fill(s, k, limitOf, Usable(s), y);
    }
  }

  /** What a window came to while everyone finished leaves the cap where it was. */
  lemma CapStays(y: Cell, z: Cell, limit: u64, usable: nat)
    requires SameWindow(y, z) && y.window <= z.window <= Cap(y, limit, usable)
    ensures Cap(z, limit, usable) == Cap(y, limit, usable)
  {
  }

  lemma {:induction false} ReachesCap(s: State, k: KeyId, limitOf: KeyId -> u64)
    requires Tellable(s, k, limitOf)
    ensures CanReach(s, k, limitOf, Cap(CellOf(s, k), limitOf(k), |Usable(s)|))
  {
    var y := CellOf(s, k);
    var more := Settle(s, k, limitOf, |s.conns|);
    var t := Run(s, more);
    NeverBeyondCap(s, k, limitOf, more);
    CapStays(y, CellOf(t, k), limitOf(k), |Usable(s)|);
    var rest := FillSettled(t, k, limitOf);
    Reaches(s, more, t, rest, Run(t, rest), limitOf);
    assert WindowIs(Run(s, more + rest), k, Cap(y, limitOf(k), |Usable(s)|));
  }

  /** `w` is the most the gate can make of the window, and it can make that. */
  ghost predicate Furthest(s: State, k: KeyId, limitOf: KeyId -> u64, w: int) {
    CanReach(s, k, limitOf, w) && forall v | CanReach(s, k, limitOf, v) :: v <= w
  }

  /** The gate can bring the window over the limit. */
  ghost predicate CanOverrun(s: State, k: KeyId, limitOf: KeyId -> u64) {
    exists w :: CanReach(s, k, limitOf, w) && w > limitOf(k)
  }

  lemma {:induction false} FurthestIsCap(s: State, k: KeyId, limitOf: KeyId -> u64)
    requires Tellable(s, k, limitOf)
    ensures Furthest(s, k, limitOf, Cap(CellOf(s, k), limitOf(k), |Usable(s)|))
    ensures CanOverrun(s, k, limitOf) <==> Cap(CellOf(s, k), limitOf(k), |Usable(s)|) > limitOf(k)
  {
    ReachesCap(s, k, limitOf);
    forall w | CanReach(s, k, limitOf, w) ensures w <= Cap(CellOf(s, k), limitOf(k), |Usable(s)|) {
      var more :| GateOnly(more, limitOf) && WindowIs(Run(s, more), k, w);
      NeverBeyondCap(s, k, limitOf, more);
    }
  }

  lemma {:induction false} RunKeepsUniform(s: State, actions: seq<Action>, limitOf: KeyId -> u64)
    requires Uniform(s, limitOf) && LimitsAgree(actions, limitOf)
    ensures Uniform(Run(s, actions), limitOf)
    decreases |actions|
  {
    if actions != [] {
      StepKeepsUniform(s, actions[0], limitOf);
      RunKeepsUniform(Step(s, actions[0]), actions[1..], limitOf);
    }
  }

  lemma UsableBelow(s: State)
    ensures |Usable(s)| <= |s.conns|
  {
    SizeBelow(Usable(s), |s.conns|);
  }

  /**
   How far a window can grow, from any moment of any run, whatever refusals are pending and whatever other requests are
   under way. If the base is below the limit and enough connections can go on to lift it to zero, the furthest the gate
   can bring the window is the limit plus the caught refusals less the add-back; otherwise it lets nothing through at
   all. So the window can come to exceed the limit exactly when it exceeds it already, or can grow and fewer
   came back than were caught.
   */
  lemma {:induction false} WindowReach(n: nat, actions: seq<Action>, limitOf: KeyId -> u64, k: KeyId)
    requires LimitsAgree(actions, limitOf) && k in Run(Start(n), actions).registry
    requires var s := Run(Start(n), actions);
             s.registry[k] < |s.cells| && Separated(CellOf(s, k), limitOf(k), n)
    ensures var s := Run(Start(n), actions);
            var y, usable := CellOf(s, k), |Usable(s)|;
            && Furthest(s, k, limitOf, if CanGrow(y, limitOf(k), usable) then Top(y, limitOf(k)) else y.window)
            && (CanOverrun(s, k, limitOf) <==>
                  y.window > limitOf(k) || (CanGrow(y, limitOf(k), usable) && y.addedBack < y.caught))
  {
    var s := Run(Start(n), actions);
    RunKeepsBalanced(Start(n), actions);
    RunKeepsUniform(Start(n), actions, limitOf);
    UsableBelow(s);
    FurthestIsCap(s, k, limitOf);
  }

  /** Counters whose operations, limit and connections together fit in a u64 are far from wrapping for good. */
  lemma {:induction false} SmallIsSeparated(n: nat, actions: seq<Action>, limit: u64, k: KeyId)
    requires k in Run(Start(n), actions).registry
    requires var s := Run(Start(n), actions); s.registry[k] < |s.cells| && CellOf(s, k).steps + limit + n < U64_LIMIT
    ensures Separated(CellOf(Run(Start(n), actions), k), limit, n)
  {
    var s := Run(Start(n), actions);
    RunKeepsBalanced(Start(n), actions);
    assert Balanced(ViewOf(s, s.registry[k]));
    PendingAtMostConnections(s, s.registry[k]);
  }

  /**
   In particular when the base is between zero and the limit and any connection can go on: the window can be filled
   to exactly the limit plus the caught refusals less the add-back, so it can overrun the limit exactly when
   fewer came back than were caught.
   */
  lemma {:induction false} WindowOverrun(n: nat, actions: seq<Action>, limitOf: KeyId -> u64, k: KeyId)
    requires LimitsAgree(actions, limitOf) && k in Run(Start(n), actions).registry
    requires var s := Run(Start(n), actions);
             && s.registry[k] < |s.cells| && Usable(s) != {}
             && 0 <= Base(CellOf(s, k)) < limitOf(k) && limitOf(k) + n < U64_LIMIT
    ensures var s := Run(Start(n), actions);
            var y := CellOf(s, k);
            && Furthest(s, k, limitOf, Top(y, limitOf(k)))
            && (CanOverrun(s, k, limitOf) <==> y.addedBack < y.caught)
  {
    WindowReach(n, actions, limitOf, k);
  }

  /**
   And at the moment a swap opens a window, having caught `p` pending refusals: the window can be filled to the limit plus
   `p` if more than `p` connections can go on, and admits nothing at all before the flusher goes on if not.
   */
  lemma {:induction false} SwapOpens(n: nat, actions: seq<Action>, limitOf: KeyId -> u64, k: KeyId)
    requires LimitsAgree(actions, limitOf) && limitOf(k) + n < U64_LIMIT
    requires Enabled(Run(Start(n), actions), Swap(k))
    ensures var s := Run(Start(n), actions + [Swap(k)]);
            && k in s.registry
            && var p := Pending(s, s.registry[k]);
               && Furthest(s, k, limitOf, if 0 < limitOf(k) && p < |Usable(s)| then limitOf(k) + p else 0)
               && (CanOverrun(s, k, limitOf) <==> 0 < limitOf(k) && 0 < p < |Usable(s)|)
  {
    var before := Run(Start(n), actions);
    var s := Step(before, Swap(k));
    RunConcat(Start(n), actions, [Swap(k)]);
    RunOne(before, Swap(k));
    var y, p := CellOf(s, k), Pending(s, s.registry[k]);
    assert y.window == 0 && y.addedBack == 0 && y.caught == p;
    RunKeepsBalanced(Start(n), actions);
    PendingAtMostConnections(s, s.registry[k]);
    WindowReach(n, actions + [Swap(k)], limitOf, k);
  }
}
