/**
 The per-key quota counters, as an interleaving of atomic steps.

 Any number of connections run the admission gate while one flusher thread drains the
 counters. A connection is between two of its own steps for as long as the schedule likes, so a
 run is a list of actions; an action that is not enabled changes nothing. The counters
 are u64 atomics and wrap. Each counter carries a ledger of what happened to it, which no
 step reads.
 */
module Quota {
  import opened Basics

  type KeyId = string

  /** Where a connection stands in the gate. */
  datatype Phase =
    | Idle
    | Missed              // the read lookup found no counter for the key
    | Found(cell: nat)    // holds the shared counter
    | Over(cell: nat)     // fetch_add saw the limit reached; fetch_sub still to come

  datatype Conn = Conn(key: KeyId, limit: u64, phase: Phase)

  /** One shared counter and its ledger. */
  datatype Cell = Cell(
    value: u64,           // the atomic itself
    admitted: nat,        // requests let through
    refused: nat,         // requests turned away, subtraction done
    sent: nat,            // sum of the amounts the server acknowledged
    // the same movements counted without wrap-around
    net: int,
    ackedNet: int,
    steps: nat,
    // since the last swap
    window: nat,          // requests let through
    addedBack: int,       // what a failed send returned
    caught: nat,          // refusals that swap found waiting to subtract
    // over the whole run
    dirtySwaps: nat       // swaps that did find one
  )

  datatype Flusher =
    | Sleeping
    | Scanning(todo: set<KeyId>)
    | Holding(todo: set<KeyId>, cell: nat, ops: u64, net: int)

  /** `registry` maps a key to the index of its counter: the index is the identity of the Arc. */
  datatype State = State(registry: map<KeyId, nat>, cells: seq<Cell>, conns: seq<Conn>, flusher: Flusher)

  datatype Action =
    | Auth(c: nat, key: KeyId, limit: u64)
    | Lookup(c: nat)
    | Insert(c: nat)
    | FetchAdd(c: nat)
    | FetchSub(c: nat)
    | BeginScan
    | Swap(flushed: KeyId)
    | SendOk
    | SendFail
    | EndScan

  const FRESH_CELL := Cell(0, 0, 0, 0, 0, 0, 0, 0, 0, 0, 0)

  // `fetch_add` and `fetch_sub` wrap around.
  function AddWrap(m: u64, n: u64): u64 { if m + n < U64_LIMIT then m + n else m + n - U64_LIMIT }

  function Inc(n: u64): u64 { AddWrap(n, 1) }

  function Dec(n: u64): u64 { if n > 0 then n - 1 else U64_LIMIT - 1 }

  function Start(connections: nat): (s: State) {
    State(map[], [], seq(connections, _ => Conn("", 0, Idle)), Sleeping)
  }

  /** The write lock is excluded while the flusher holds its read guard. */
  predicate WriteLockFree(s: State) { s.flusher.Sleeping? }

  function SetPhase(s: State, c: nat, p: Phase): State
    requires c < |s.conns|
  {
    s.(conns := s.conns[c := s.conns[c].(phase := p)])
  }

  /** Whether action `a` may happen in `s`. */
  predicate Enabled(s: State, a: Action) {
    match a
    case Auth(c, _, _) => c < |s.conns| && s.conns[c].phase.Idle?
    case Lookup(c) => c < |s.conns| && s.conns[c].phase.Idle? && s.conns[c].limit > 0
    case Insert(c) => c < |s.conns| && s.conns[c].phase.Missed? && WriteLockFree(s)
    case FetchAdd(c) => c < |s.conns| && s.conns[c].phase.Found? && s.conns[c].phase.cell < |s.cells|
    case FetchSub(c) => c < |s.conns| && s.conns[c].phase.Over? && s.conns[c].phase.cell < |s.cells|
    case BeginScan => s.flusher.Sleeping?
    case Swap(k) => s.flusher.Scanning? && k in s.flusher.todo && k in s.registry && s.registry[k] < |s.cells|
    case SendOk => s.flusher.Holding? && s.flusher.cell < |s.cells|
    case SendFail => s.flusher.Holding? && s.flusher.cell < |s.cells|
    case EndScan => s.flusher.Scanning? && s.flusher.todo == {}
  }

  function AddTo(x: Cell, limit: u64): (y: Cell)
  {
    var y := x.(value := Inc(x.value), net := x.net + 1, steps := x.steps + 1);
    if x.value >= limit then y else y.(admitted := x.admitted + 1, window := x.window + 1)
  }

  function SubFrom(x: Cell): Cell {
    x.(value := Dec(x.value), refused := x.refused + 1, net := x.net - 1, steps := x.steps + 1)
  }

  /** `swap(0)`, noting how many refusals were waiting to subtract. */
  function Drain(x: Cell, waiting: nat): Cell {
    x.(value := 0, net := 0, ackedNet := x.ackedNet + if x.value == 0 then x.net else 0,
       steps := x.steps + 1, window := 0, addedBack := 0, caught := waiting,
       dirtySwaps := x.dirtySwaps + if waiting > 0 then 1 else 0)
  }

  function Step(s: State, a: Action): State {
    if !Enabled(s, a) then s else
    match a
    case Auth(c, k, limit) => s.(conns := s.conns[c := Conn(k, limit, Idle)])
    case Lookup(c) =>
      var k := s.conns[c].key;
      SetPhase(s, c, if k in s.registry then Found(s.registry[k]) else Missed)
    case Insert(c) =>
      // `entry(..).or_insert_with(..)`: another connection may have inserted meanwhile
      var k := s.conns[c].key;
      if k in s.registry then SetPhase(s, c, Found(s.registry[k]))
      else SetPhase(s.(registry := s.registry[k := |s.cells|], cells := s.cells + [FRESH_CELL]), c, Found(|s.cells|))
    case FetchAdd(c) =>
      var x := s.conns[c].phase.cell;
      var over := s.cells[x].value >= s.conns[c].limit;
      SetPhase(s.(cells := s.cells[x := AddTo(s.cells[x], s.conns[c].limit)]), c, if over then Over(x) else Idle)
    case FetchSub(c) =>
      var x := s.conns[c].phase.cell;
      SetPhase(s.(cells := s.cells[x := SubFrom(s.cells[x])]), c, Idle)
    case BeginScan => s.(flusher := Scanning(s.registry.Keys))
    case Swap(k) =>
      var x := s.registry[k];
      var todo := s.flusher.todo - {k};
      var cell := s.cells[x];
      s.(cells := s.cells[x := Drain(cell, Pending(s, x))],
         flusher := if cell.value == 0 then Scanning(todo) else Holding(todo, x, cell.value, cell.net))
    case SendOk =>
      var f, x := s.flusher, s.flusher.cell;
      var cell := s.cells[x];
      s.(cells := s.cells[x := cell.(sent := cell.sent + f.ops, ackedNet := cell.ackedNet + f.net)],
         flusher := Scanning(f.todo))
    case SendFail =>
      var f, x := s.flusher, s.flusher.cell;
      var cell := s.cells[x];
      s.(cells := s.cells[x := cell.(value := AddWrap(cell.value, f.ops), net := cell.net + f.net, addedBack := f.net)],
         flusher := Scanning(f.todo))
    case EndScan => s.(flusher := Sleeping)
  }

  function Run(s: State, actions: seq<Action>): State
    decreases |actions|
  {
    if actions == [] then s else Run(Step(s, actions[0]), actions[1..])
  }

  function WaitingOn(conns: seq<Conn>, x: nat): set<nat> {
    set c: nat | c < |conns| && conns[c].phase == Over(x)
  }

  /** Refusals of counter `x` whose subtraction is still to come. */
  function Pending(s: State, x: nat): nat { |WaitingOn(s.conns, x)| }
}
