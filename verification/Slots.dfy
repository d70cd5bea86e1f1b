/** Cache slots and the lifecycle of their entries. */
module Slots {
  import opened Basics
  import opened Fingerprints
  import opened Runs

  // ── Lifecycle ─────────────────────────────────────────────────────

  type Bytes58 = b: Bytes | |b| == 58 witness seq(58, _ => 0)

  datatype EntryState =
    | Active
    | Superseded(successor: Digest)
    | Revoked(reason: string, revokedAt: u64, attestation: Option<Bytes58>)
    | Expired(validUntil: u64)
    | Deprecated(family: string, deprecationDate: u64, twoOfThreeValid: bool)

  predicate Terminal(s: EntryState) { s.Superseded? || s.Revoked? }

  /** `is_reversible`. */
  predicate IsReversible(s: EntryState) {
    match s
    case Superseded(_) => false
    case Revoked(_, _, _) => false
    case Expired(_) => true
    case Deprecated(_, _, _) => true
    case Active => true
  }

  /** The transitions `transition` lets through. */
  predicate Legal(from: EntryState, to: EntryState) {
    match (from, to)
    case (Active, Superseded(_)) => true
    case (Active, Revoked(_, _, _)) => true
    case (Active, Expired(_)) => true
    case (Active, Deprecated(_, _, _)) => true
    case (Expired(_), Active) => true
    case (Deprecated(_, _, _), Active) => true
    case _ => false
  }

  /** The table in words: out of Active into anything else, and from Expired or Deprecated back to Active. */
  lemma LegalTable(from: EntryState, to: EntryState)
    ensures Legal(from, to) <==> (from.Active? && !to.Active?) || ((from.Expired? || from.Deprecated?) && to.Active?)
  {
  }

  /** Reversible means exactly that some transition out is legal. */
  lemma ReversibleIsLegal(s: EntryState)
    ensures IsReversible(s) <==> exists t :: Legal(s, t)
  {
    if s.Active? {
      assert Legal(s, Expired(0));
    } else if IsReversible(s) {
      assert Legal(s, Active);
    }
  }

  // ── Runs of transitions ───────────────────────────────────────────

  /** The states entered so far; an attempt that is refused adds nothing. */
  function Attempt(trace: seq<EntryState>, to: EntryState): seq<EntryState> {
    if trace != [] && Legal(trace[|trace| - 1], to) then trace + [to] else trace
  }

  /** Every second state is Active, starting with the first, and only the last can be terminal. */
  predicate Alternates(trace: seq<EntryState>) {
    && trace != []
    && (forall i | 0 <= i < |trace| :: trace[i].Active? <==> i % 2 == 0)
    && (forall i | 0 <= i < |trace| - 1 :: !Terminal(trace[i]))
    && (forall i | 0 <= i < |trace| - 1 :: Legal(trace[i], trace[i + 1]))
  }

  lemma AttemptAlternates(trace: seq<EntryState>, to: EntryState)
    requires Alternates(trace)
    ensures Alternates(Attempt(trace, to))
  {
    var n := |trace| - 1;
    if Legal(trace[n], to) {
      assert trace[n].Active? <==> n % 2 == 0;
      assert to.Active? <==> !trace[n].Active?;
    }
  }

  /**
   Whatever transitions are attempted on a new slot, those that succeed alternate between leaving
   and entering Active, and hold at most one terminal step, which is the last.
   */
  lemma LifecycleRun(attempts: seq<EntryState>)
    ensures Alternates(RunAll((trace: seq<EntryState>, to: EntryState) => Attempt(trace, to), [Active], attempts))
  {
    forall trace: seq<EntryState>, to: EntryState | Alternates(trace) ensures Alternates(Attempt(trace, to)) {
      AttemptAlternates(trace, to);
    }
    RunKeeps((trace: seq<EntryState>, to: EntryState) => Attempt(trace, to), (_: EntryState) => true,
             (trace: seq<EntryState>) => Alternates(trace), [Active], attempts);
  }

  // ── Slots ─────────────────────────────────────────────────────────

  datatype Slot = Slot(value: Bytes, fingerprint: Fingerprint, state: EntryState, createdAt: u64, contentAddress: Digest)

  function AddressPreimage(sha3: HashFn, value: Bytes, fp: Fingerprint): Bytes {
    sha3(value) + DigestOf(sha3, fp)
  }

  /** `compute_content_address`. */
  function SlotAddress(sha3: HashFn, value: Bytes, fp: Fingerprint): Digest {
    sha3(AddressPreimage(sha3, value, fp))
  }

  /** `CacheSlot::new`. */
  function NewSlot(sha3: HashFn, value: Bytes, fp: Fingerprint, now: u64): Slot {
    Slot(value, fp, Active, now, SlotAddress(sha3, value, fp))
  }

  /** A slot's address fixes its value and, for fingerprints a SET can build, its fingerprint; or one of three collisions. */
  lemma SlotAddressBinds(sha3: HashFn, v: Bytes, f: Fingerprint, w: Bytes, g: Fingerprint)
    requires SlotAddress(sha3, v, f) == SlotAddress(sha3, w, g) && DaemonBuilt(f) && DaemonBuilt(g)
    ensures || (v == w && f == g)
            || Collide(sha3, AddressPreimage(sha3, v, f), AddressPreimage(sha3, w, g))
            || Collide(sha3, v, w)
            || Collide(sha3, DigestPreimage(f), DigestPreimage(g))
  {
    var p, q := AddressPreimage(sha3, v, f), AddressPreimage(sha3, w, g);
    if p == q {
      assert p[..32] == sha3(v) && q[..32] == sha3(w);
      assert p[32..] == DigestOf(sha3, f) && q[32..] == DigestOf(sha3, g);
      DaemonDigestBinds(sha3, f, g);
    }
  }

  // ── The slot object ───────────────────────────────────────────────

  datatype Transition = Transition(from: EntryState, to: EntryState, contentAddress: Digest)

  datatype Refusal = TerminalSuperseded | TerminalRevoked | IllegalTransition

  /** Why a state refuses a transition: it is terminal, or the transition is not one of the legal ones. */
  function RefusalOf(s: EntryState): Refusal {
    if s.Superseded? then TerminalSuperseded else if s.Revoked? then TerminalRevoked else IllegalTransition
  }

  class CacheSlot {
    const value: Bytes
    const fingerprint: Fingerprint
    const createdAt: u64
    const contentAddress: Digest
    var state: EntryState

    function Contents(): Slot
      reads this
    {
      Slot(value, fingerprint, state, createdAt, contentAddress)
    }

    constructor (sha3: HashFn, value: Bytes, fingerprint: Fingerprint, now: u64)
      ensures Contents() == NewSlot(sha3, value, fingerprint, now)
    {
      this.value := value;
      this.fingerprint := fingerprint;
      this.createdAt := now;
      this.contentAddress := SlotAddress(sha3, value, fingerprint);
      this.state := Active;
    }

    /** The slot taken out of a registry. */
    constructor From(slot: Slot)
      ensures Contents() == slot
    {
      value, fingerprint, createdAt, contentAddress := slot.value, slot.fingerprint, slot.createdAt, slot.contentAddress;
      state := slot.state;
    }

    method TransitionTo(to: EntryState) returns (r: Result<Transition, Refusal>)
      modifies this`state
      ensures r.Ok? <==> Legal(old(state), to)
      ensures r.Ok? ==> state == to && r.value == Transition(old(state), to, contentAddress)
      ensures r.Err? ==> state == old(state)
      ensures r.Err? ==> r.error == RefusalOf(old(state))
    {
      match (state, to) {
        case (Active, Superseded(_)) =>
        case (Active, Revoked(_, _, _)) =>
        case (Active, Expired(_)) =>
        case (Active, Deprecated(_, _, _)) =>
        case (Expired(_), Active) =>
        case (Deprecated(_, _, _), Active) =>
        case (Superseded(_), _) => return Err(TerminalSuperseded);
        case (Revoked(_, _, _), _) => return Err(TerminalRevoked);
        case _ => return Err(IllegalTransition);
      }
      var transition := Transition(state, to, contentAddress);
      state := to;
      return Ok(transition);
    }

    /** `is_evictable`: only a slot that could still be revoked. */
    predicate IsEvictable()
      reads this
      ensures IsEvictable() <==> Legal(state, Revoked("", 0, None))
    {
      state.Active?
    }
  }
}
