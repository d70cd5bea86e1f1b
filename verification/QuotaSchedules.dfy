/** Schedules of two connections and the flusher that show where the window bounds are met. */
module QuotaSchedules {
  import opened Quota
  import opened QuotaProofs

  lemma {:induction false} RunAlong(trace: seq<State>, actions: seq<Action>)
    requires |trace| == |actions| + 1
    requires forall i | 0 <= i < |actions| :: Step(trace[i], actions[i]) == trace[i + 1]
    ensures Run(trace[0], actions) == trace[|actions|]
    decreases |actions|
  {
    if actions != [] {
      RunAlong(trace[1..], actions[1..]);
    }
  }

  /** Two connections of key "k", limit 1, and its counter. */
  function Duo(y: Cell, p: Phase, q: Phase, f: Flusher): State {
    State(map["k" := 0], [y], [Conn("k", 1, p), Conn("k", 1, q)], f)
  }

  const REGISTER: seq<Action> := [Auth(0, "k", 1), Auth(1, "k", 1), Lookup(0), Insert(0)]
  const CHARGE: seq<Action> := [FetchAdd(0), Lookup(1), FetchAdd(1)]
  const DIRTY_FLUSH: seq<Action> := [BeginScan, Swap("k"), SendOk, EndScan, FetchSub(1)]
  const REFILL: seq<Action> := [BeginScan, Swap("k"), Lookup(0), FetchAdd(0)]
  const GIVE_BACK: seq<Action> := [SendFail, Lookup(0), FetchAdd(0)]

  const CHARGED := Cell(2, 1, 0, 0, 2, 0, 2, 1, 0, 0, 0)
  const WRAPPED := Cell(0xFFFF_FFFF_FFFF_FFFF, 1, 1, 2, -1, 2, 4, 0, 0, 1, 1)
  const REFILLED := Cell(1, 2, 1, 2, 1, 2, 6, 1, 0, 0, 1)
  const TAKEN := Holding({}, 0, 0xFFFF_FFFF_FFFF_FFFF, -1)
  const OVERRUN := Cell(1, 3, 1, 2, 1, 2, 7, 2, -1, 0, 1)

  lemma RegisterRun()
    ensures Run(Start(2), REGISTER) == Duo(FRESH_CELL, Found(0), Idle, Sleeping)
  {
    var blank := Conn("", 0, Idle);
    var idle := Conn("k", 1, Idle);
    var s0 := State(map[], [], [blank, blank], Sleeping);
    var s1 := State(map[], [], [idle, blank], Sleeping);
    var s2 := State(map[], [], [idle, idle], Sleeping);
    var s3 := State(map[], [], [Conn("k", 1, Missed), idle], Sleeping);
    var s4 := Duo(FRESH_CELL, Found(0), Idle, Sleeping);
    assert Start(2) == s0;
    assert Step(s0, Auth(0, "k", 1)) == s1;
    assert Step(s1, Auth(1, "k", 1)) == s2;
    assert Step(s2, Lookup(0)) == s3;
    assert Step(s3, Insert(0)) == s4;
    RunAlong([s0, s1, s2, s3, s4], REGISTER);
  }

  lemma ChargeRun()
    ensures Run(Duo(FRESH_CELL, Found(0), Idle, Sleeping), CHARGE) == Duo(CHARGED, Idle, Over(0), Sleeping)
  {
    var y := Cell(1, 1, 0, 0, 1, 0, 1, 1, 0, 0, 0);
    var s0 := Duo(FRESH_CELL, Found(0), Idle, Sleeping);
    var s1 := Duo(y, Idle, Idle, Sleeping);
    var s2 := Duo(y, Idle, Found(0), Sleeping);
    var s3 := Duo(CHARGED, Idle, Over(0), Sleeping);
    Charges(FRESH_CELL, Idle, Sleeping);
    assert Step(s1, Lookup(1)) == s2;
    assert Step(s2, FetchAdd(1)) == s3;
    RunAlong([s0, s1, s2, s3], CHARGE);
  }

  lemma OneWaiting(s: State)
    requires |s.conns| == 2 && s.conns[0].phase == Idle && s.conns[1].phase == Over(0)
    ensures Pending(s, 0) == 1
  {
    assert WaitingOn(s.conns, 0) == {1};
  }

  lemma DirtyFlushRun()
    ensures Run(Duo(CHARGED, Idle, Over(0), Sleeping), DIRTY_FLUSH) == Duo(WRAPPED, Idle, Idle, Sleeping)
  {
    var y := Cell(0, 1, 0, 0, 0, 0, 3, 0, 0, 1, 1);
    var z := Cell(0, 1, 0, 2, 0, 2, 3, 0, 0, 1, 1);
    var s0 := Duo(CHARGED, Idle, Over(0), Sleeping);
    var s1 := Duo(CHARGED, Idle, Over(0), Scanning({"k"}));
    var s2 := Duo(y, Idle, Over(0), Holding({}, 0, 2, 2));
    var s3 := Duo(z, Idle, Over(0), Scanning({}));
    var s4 := Duo(z, Idle, Over(0), Sleeping);
    var s5 := Duo(WRAPPED, Idle, Idle, Sleeping);
    assert map["k" := 0].Keys == {"k"};
    assert Step(s0, BeginScan) == s1;
    OneWaiting(s1);
    assert {"k"} - {"k"} == {};
    assert Step(s1, Swap("k")) == s2;
    assert Step(s2, SendOk) == s3;
    assert Step(s3, EndScan) == s4;
    assert Step(s4, FetchSub(1)) == s5;
    RunAlong([s0, s1, s2, s3, s4, s5], DIRTY_FLUSH);
  }

  lemma RefillRun()
    ensures Run(Duo(WRAPPED, Idle, Idle, Sleeping), REFILL) == Duo(REFILLED, Idle, Idle, TAKEN)
  {
    var y := Cell(0, 1, 1, 2, 0, 2, 5, 0, 0, 0, 1);
    var s0 := Duo(WRAPPED, Idle, Idle, Sleeping);
    var s1 := Duo(WRAPPED, Idle, Idle, Scanning({"k"}));
    var s2 := Duo(y, Idle, Idle, TAKEN);
    var s3 := Duo(y, Found(0), Idle, TAKEN);
    var s4 := Duo(REFILLED, Idle, Idle, TAKEN);
    assert map["k" := 0].Keys == {"k"};
    assert Step(s0, BeginScan) == s1;
    assert WaitingOn(s1.conns, 0) == {};
    assert {"k"} - {"k"} == {};
    assert Step(s1, Swap("k")) == s2;
    assert Step(s2, Lookup(0)) == s3;
    assert Step(s3, FetchAdd(0)) == s4;
    RunAlong([s0, s1, s2, s3, s4], REFILL);
  }

  lemma GiveBackRun()
    ensures Run(Duo(REFILLED, Idle, Idle, TAKEN), GIVE_BACK) == Duo(OVERRUN, Idle, Idle, Scanning({}))
  {
    var y := Cell(0, 2, 1, 2, 0, 2, 6, 1, -1, 0, 1);
    var s0 := Duo(REFILLED, Idle, Idle, TAKEN);
    var s1 := Duo(y, Idle, Idle, Scanning({}));
    var s2 := Duo(y, Found(0), Idle, Scanning({}));
    var s3 := Duo(OVERRUN, Idle, Idle, Scanning({}));
    assert Step(s0, SendFail) == s1;
    assert Step(s1, Lookup(0)) == s2;
    assert Step(s2, FetchAdd(0)) == s3;
    RunAlong([s0, s1, s2, s3], GIVE_BACK);
  }

  /**
   The add-back matters in a clean window too: once a dirty swap has wrapped the counter, a later clean
   swap takes 2^64 - 1, and when sending that fails the window it opened admits two requests under a limit of one.
   */
  lemma FailedSendOverrunsWindow()
    ensures var s := Run(Start(2), REGISTER + CHARGE + DIRTY_FLUSH + REFILL + GIVE_BACK);
            && s.registry == map["k" := 0] && |s.cells| == 1
            && s.cells[0].caught == 0 && s.cells[0].addedBack == -1 && s.cells[0].window == 2
  {
    RunConcat(Start(2), REGISTER + CHARGE + DIRTY_FLUSH + REFILL, GIVE_BACK);
    RunConcat(Start(2), REGISTER + CHARGE + DIRTY_FLUSH, REFILL);
    RunConcat(Start(2), REGISTER + CHARGE, DIRTY_FLUSH);
    RunConcat(Start(2), REGISTER, CHARGE);
    RegisterRun();
    ChargeRun();
    DirtyFlushRun();
    RefillRun();
    GiveBackRun();
  }

  /** A dirty swap under way: connection 1 still owes its subtraction. */
  const CATCH: seq<Action> := [BeginScan, Swap("k"), SendOk]
  const USE_ONE: seq<Action> := [Lookup(0), FetchAdd(0)]
  const USE_REST: seq<Action> := [FetchSub(1), Lookup(0), FetchAdd(0)]

  const CAUGHT := Cell(0, 1, 0, 2, 0, 2, 3, 0, 0, 1, 1)
  const DIRTY_OVERRUN := Cell(1, 3, 1, 2, 1, 2, 6, 2, 0, 1, 1)

  lemma CatchRun()
    ensures Run(Duo(CHARGED, Idle, Over(0), Sleeping), CATCH) == Duo(CAUGHT, Idle, Over(0), Scanning({}))
  {
    var s0 := Duo(CHARGED, Idle, Over(0), Sleeping);
    var s1 := Duo(CHARGED, Idle, Over(0), Scanning({"k"}));
    var s2 := Duo(Cell(0, 1, 0, 0, 0, 0, 3, 0, 0, 1, 1), Idle, Over(0), Holding({}, 0, 2, 2));
    var s3 := Duo(CAUGHT, Idle, Over(0), Scanning({}));
    assert map["k" := 0].Keys == {"k"};
    assert Step(s0, BeginScan) == s1;
    OneWaiting(s1);
    assert {"k"} - {"k"} == {};
    assert Step(s1, Swap("k")) == s2;
    assert Step(s2, SendOk) == s3;
    RunAlong([s0, s1, s2, s3], CATCH);
  }

  const CAUGHT_ONE := Cell(1, 2, 0, 2, 1, 2, 4, 1, 0, 1, 1)
  const CAUGHT_NONE := Cell(0, 2, 1, 2, 0, 2, 5, 1, 0, 1, 1)

  /** Connection 0 charges. */
  lemma Charges(y: Cell, q: Phase, f: Flusher)
    ensures Step(Duo(y, Found(0), q, f), FetchAdd(0)) == Duo(AddTo(y, 1), if y.value >= 1 then Over(0) else Idle, q, f)
  {
  }

  /** Connection 1 takes its refused charge back. */
  lemma Releases(y: Cell, p: Phase, f: Flusher)
    ensures Step(Duo(y, p, Over(0), f), FetchSub(1)) == Duo(SubFrom(y), p, Idle, f)
  {
  }

  lemma FirstUse()
    ensures Run(Duo(CAUGHT, Idle, Over(0), Scanning({})), USE_ONE)
         == Duo(CAUGHT_ONE, Idle, Over(0), Scanning({}))
  {
    var s0 := Duo(CAUGHT, Idle, Over(0), Scanning({}));
    var s1 := Duo(CAUGHT, Found(0), Over(0), Scanning({}));
    var s2 := Duo(CAUGHT_ONE, Idle, Over(0), Scanning({}));
    assert Step(s0, Lookup(0)) == s1;
    Charges(CAUGHT, Over(0), Scanning({}));
    RunAlong([s0, s1, s2], USE_ONE);
  }

  lemma SecondUse()
    ensures Run(Duo(CAUGHT_ONE, Idle, Over(0), Scanning({})), USE_REST)
         == Duo(DIRTY_OVERRUN, Idle, Idle, Scanning({}))
  {
    var s0 := Duo(CAUGHT_ONE, Idle, Over(0), Scanning({}));
    var s1 := Duo(CAUGHT_NONE, Idle, Idle, Scanning({}));
    var s2 := Duo(CAUGHT_NONE, Found(0), Idle, Scanning({}));
    var s3 := Duo(DIRTY_OVERRUN, Idle, Idle, Scanning({}));
    Releases(CAUGHT_ONE, Idle, Scanning({}));
    assert Step(s1, Lookup(0)) == s2;
    Charges(CAUGHT_NONE, Idle, Scanning({}));
    RunAlong([s0, s1, s2, s3], USE_REST);
  }

  /**
   A window overruns with no failed send at all: a swap catches one pending refusal, and after that refusal
   subtracts the window admits two requests under a limit of one.
   */
  lemma DirtySwapOverrunsWindow()
    ensures var s := Run(Start(2), REGISTER + CHARGE + CATCH + USE_ONE + USE_REST);
            && s.registry == map["k" := 0] && |s.cells| == 1
            && s.cells[0].caught == 1 && s.cells[0].addedBack == 0 && s.cells[0].window == 2
  {
    RunConcat(Start(2), REGISTER + CHARGE + CATCH + USE_ONE, USE_REST);
    RunConcat(Start(2), REGISTER + CHARGE + CATCH, USE_ONE);
    RunConcat(Start(2), REGISTER + CHARGE, CATCH);
    RunConcat(Start(2), REGISTER, CHARGE);
    RegisterRun();
    ChargeRun();
    CatchRun();
    FirstUse();
    SecondUse();
  }
}
