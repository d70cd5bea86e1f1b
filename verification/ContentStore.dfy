/** The content-addressed store: bundles under the hash of their identifying parts. */
module ContentStore {
  import opened Basics
  import opened OrderedMaps
  import opened Archive
  import opened ArchiveProofs
  import Wire

  datatype StoreEnv = StoreEnv(sha3: HashFn, codec: IdentityCodec)

  datatype StoreState = StoreState(db: Db, count: u64)

  // ── Operations as changes of state ────────────────────────────────

  /** `open`: the count starts at the number of pairs on disk. */
  function OpenedStore(db: Db): StoreState {
    StoreState(db, |db| % 0x1_0000_0000_0000_0000)
  }

  /** `put`. */
  function AfterPut(env: StoreEnv, st: StoreState, b: Bundle, fault: Fault): StoreState {
    var written := Insert(st.db, AddressOf(env.sha3, b), Serialized(env.codec, b));
    match fault
    case WriteFails => st
    case FlushFails => StoreState(written, st.count)
    case NoFault => StoreState(written, (st.count + 1) % 0x1_0000_0000_0000_0000)
  }

  /** `get`. */
  function Fetched(env: StoreEnv, db: Db, address: Digest): Result<Option<Bundle>, Wire.ParseError> {
    match Get(db, address)
    case None => Ok(None)
    case Some(bytes) =>
      var b :- Deserialized(env.codec, bytes);
      Ok(Some(b))
  }

  /** `addresses`: the keys of the right length, in order. */
  function Addresses(db: Db): seq<Digest> {
    if db == [] then []
    else Addresses(db[..|db| - 1]) + if |db[|db| - 1].key| == 32 then [db[|db| - 1].key] else []
  }

  // ── Runs of puts ──────────────────────────────────────────────────

  datatype PutOp = PutOp(bundle: Bundle, fault: Fault)

  function PutAll(env: StoreEnv, st: StoreState, ops: seq<PutOp>): StoreState {
    if ops == [] then st
    else
      var n := |ops| - 1;
      AfterPut(env, PutAll(env, st, ops[..n]), ops[n].bundle, ops[n].fault)
  }

  /** This put writes at address `a`; one whose flush fails does. */
  predicate Lands(env: StoreEnv, op: PutOp, a: Digest) {
    op.fault != WriteFails && AddressOf(env.sha3, op.bundle) == a
  }

  function LastPut(env: StoreEnv, ops: seq<PutOp>, a: Digest): Option<Bundle> {
    if ops == [] then None
    else
      var n := |ops| - 1;
      if Lands(env, ops[n], a) then Some(ops[n].bundle) else LastPut(env, ops[..n], a)
  }

  lemma {:induction false} PutAllSorted(env: StoreEnv, st: StoreState, ops: seq<PutOp>)
    requires Sorted(st.db)
    ensures Sorted(PutAll(env, st, ops).db)
  {
    if ops != [] {
      var n := |ops| - 1;
      PutAllSorted(env, st, ops[..n]);
      InsertSorted(PutAll(env, st, ops[..n]).db, AddressOf(env.sha3, ops[n].bundle), Serialized(env.codec, ops[n].bundle));
    }
  }

  /** What is stored at an address after a run is the last bundle that landed there, else what was there before. */
  lemma {:induction false} StoredIsLastPut(env: StoreEnv, st: StoreState, ops: seq<PutOp>, a: Digest)
    requires Sorted(st.db)
    ensures Get(PutAll(env, st, ops).db, a)
         == match LastPut(env, ops, a) case Some(b) => Some(Serialized(env.codec, b)) case None => Get(st.db, a)
  {
    if ops != [] {
      var n := |ops| - 1;
      PutAllSorted(env, st, ops[..n]);
      StoredIsLastPut(env, st, ops[..n], a);
      GetInsert(PutAll(env, st, ops[..n]).db, AddressOf(env.sha3, ops[n].bundle), Serialized(env.codec, ops[n].bundle), a);
    }
  }

  lemma {:induction false} LastPutIsThere(env: StoreEnv, ops: seq<PutOp>, a: Digest)
    ensures match LastPut(env, ops, a)
            case Some(b) => AddressOf(env.sha3, b) == a && exists op | op in ops :: op.bundle == b
            case None => forall op | op in ops :: !Lands(env, op, a)
  {
    if ops != [] {
      var n := |ops| - 1;
      LastPutIsThere(env, ops[..n], a);
      assert ops[n] in ops;
      assert forall op :: op in ops <==> op in ops[..n] || op == ops[n];
    }
  }

  /**
   The store certifies itself: after any run of puts of canonical bundles on an empty store, with any failures, an address is
   in use exactly if some put landed there; looking it up never fails, and gives exactly the last
   bundle that landed there, signatures and all, whose address computed again is the one asked for.
   */
  lemma {:induction false} SelfCertifying(env: StoreEnv, ops: seq<PutOp>, a: Digest)
    requires CodecFaithful(env.codec) && forall op | op in ops :: Canonical(env.codec, op.bundle)
    ensures var db := PutAll(env, OpenedStore([]), ops).db;
            && Fetched(env, db, a) == Ok(LastPut(env, ops, a))
            && (Has(db, a) <==> exists op | op in ops :: Lands(env, op, a))
            && match LastPut(env, ops, a)
               case Some(b) => AddressOf(env.sha3, b) == a && exists op | op in ops :: op.bundle == b
               case None => true
  {
    StoredIsLastPut(env, OpenedStore([]), ops, a);
    LastPutIsThere(env, ops, a);
    if LastPut(env, ops, a).Some? { LastLands(env, ops, a); }
    match LastPut(env, ops, a)
    case Some(b) => RoundTrip(env.codec, b);
    case None =>
  }

  lemma {:induction false} LastLands(env: StoreEnv, ops: seq<PutOp>, a: Digest)
    requires LastPut(env, ops, a).Some?
    ensures exists op | op in ops :: Lands(env, op, a)
  {
    var n := |ops| - 1;
    if Lands(env, ops[n], a) {
      assert ops[n] in ops;
    } else {
      LastLands(env, ops[..n], a);
      var op :| op in ops[..n] && Lands(env, op, a);
      assert op in ops;
    }
  }

  // ── Counting ──────────────────────────────────────────────────────

  /** Puts that went through, puts that failed at the flush, and puts of either kind over an address already in use. */
  datatype Tally = Tally(done: nat, unflushed: nat, over: nat)

  function TallyStep(t: Tally, fault: Fault, taken: bool): Tally {
    if fault == WriteFails then t
    else
      Tally(t.done + if fault == NoFault then 1 else 0, t.unflushed + if fault == FlushFails then 1 else 0,
            t.over + if taken then 1 else 0)
  }

  function TallyOf(env: StoreEnv, st: StoreState, ops: seq<PutOp>): Tally {
    if ops == [] then Tally(0, 0, 0)
    else
      var n := |ops| - 1;
      TallyStep(TallyOf(env, st, ops[..n]), ops[n].fault,
                Has(PutAll(env, st, ops[..n]).db, AddressOf(env.sha3, ops[n].bundle)))
  }

  /** Starting from `start` pairs, what is stored and what is counted. */
  predicate Counted(start: nat, stored: nat, count: u64, t: Tally) {
    && stored + t.over == start + t.done + t.unflushed
    && count == (start + t.done) % 0x1_0000_0000_0000_0000
  }

  lemma CountedNext(start: nat, stored: nat, count: u64, t: Tally, fault: Fault, taken: bool)
    requires Counted(start, stored, count, t)
    ensures Counted(start, stored + (if fault != WriteFails && !taken then 1 else 0),
                    if fault == NoFault then (count + 1) % 0x1_0000_0000_0000_0000 else count, TallyStep(t, fault, taken))
  {
  }

  lemma AfterPutCounts(env: StoreEnv, st: StoreState, b: Bundle, fault: Fault)
    requires Sorted(st.db)
    ensures var after := AfterPut(env, st, b, fault);
            && |after.db| == |st.db| + (if fault != WriteFails && !Has(st.db, AddressOf(env.sha3, b)) then 1 else 0)
            && after.count == if fault == NoFault then (st.count + 1) % 0x1_0000_0000_0000_0000 else st.count
  {
    InsertLength(st.db, AddressOf(env.sha3, b), Serialized(env.codec, b));
  }

  lemma PutCounted(env: StoreEnv, start: nat, st: StoreState, t: Tally, op: PutOp)
    requires Sorted(st.db) && Counted(start, |st.db|, st.count, t)
    ensures var after := AfterPut(env, st, op.bundle, op.fault);
            Counted(start, |after.db|, after.count, TallyStep(t, op.fault, Has(st.db, AddressOf(env.sha3, op.bundle))))
  {
    AfterPutCounts(env, st, op.bundle, op.fault);
    CountedNext(start, |st.db|, st.count, t, op.fault, Has(st.db, AddressOf(env.sha3, op.bundle)));
  }

  lemma {:induction false} PutAllCounts(env: StoreEnv, db: Db, ops: seq<PutOp>)
    requires Sorted(db)
    ensures var st := PutAll(env, OpenedStore(db), ops);
            Counted(|db|, |st.db|, st.count, TallyOf(env, OpenedStore(db), ops))
  {
    if ops != [] {
      var n := |ops| - 1;
      var before := PutAll(env, OpenedStore(db), ops[..n]);
      PutAllSorted(env, OpenedStore(db), ops[..n]);
      PutAllCounts(env, db, ops[..n]);
      PutCounted(env, |db|, before, TallyOf(env, OpenedStore(db), ops[..n]), ops[n]);
    }
  }

  /** Every key is an address. */
  predicate KeysAreAddresses(db: Db) {
    forall i | 0 <= i < |db| :: |db[i].key| == 32
  }

  lemma {:induction false} AddressesAreKeys(db: Db)
    requires KeysAreAddresses(db)
    ensures |Addresses(db)| == |db| && forall i | 0 <= i < |db| :: Addresses(db)[i] == db[i].key
  {
    if db != [] {
      AddressesAreKeys(db[..|db| - 1]);
    }
  }

  /** The list holds exactly the keys of thirty-two bytes, each as often as it is a key, in their order. */
  lemma {:induction false} ListsExactly(db: Db, a: Digest)
    ensures a in Addresses(db) <==> Has(db, a)
    ensures Sorted(db) ==> Ascend(Addresses(db))
    decreases |db|
  {
    if db != [] {
      ListsExactly(db[..|db| - 1], a);
      HasLast(db, a);
      if Sorted(db) { AddressesAscend(db); }
    }
  }

  ghost predicate Ascend(s: seq<Digest>) {
    forall i, j | 0 <= i < j < |s| :: Less(s[i], s[j])
  }

  lemma {:induction false} AddressesAscend(db: Db)
    requires Sorted(db)
    ensures Ascend(Addresses(db))
    decreases |db|
  {
    if db != [] {
      var n := |db| - 1;
      var front, k := db[..n], db[n].key;
      AddressesAscend(front);
      forall i | 0 <= i < n ensures Less(front[i].key, k) { assert front[i] == db[i]; }
      forall i | 0 <= i < |Addresses(front)| ensures Less(Addresses(front)[i], k) {
        ListedBelow(front, Addresses(front)[i], k);
      }
    }
  }

  lemma HasLast(db: Db, a: Digest)
    requires db != []
    ensures Has(db, a) <==> Has(db[..|db| - 1], a) || db[|db| - 1].key == a
  {
    var n := |db| - 1;
    if Has(db[..n], a) {
      var i :| 0 <= i < n && db[..n][i].key == a;
      assert db[i].key == a;
    }
    if Has(db, a) && db[n].key != a {
      var i :| 0 <= i < |db| && db[i].key == a;
      assert db[..n][i].key == a;
    }
  }

  lemma {:induction false} ListedBelow(db: Db, a: Digest, k: Bytes)
    requires a in Addresses(db) && forall i | 0 <= i < |db| :: Less(db[i].key, k)
    ensures Less(a, k)
    decreases |db|
  {
    if a in Addresses(db[..|db| - 1]) { ListedBelow(db[..|db| - 1], a, k); }
  }

  lemma {:induction false} PutAllKeys(env: StoreEnv, st: StoreState, ops: seq<PutOp>)
    requires Sorted(st.db) && KeysAreAddresses(st.db)
    ensures KeysAreAddresses(PutAll(env, st, ops).db)
  {
    if ops != [] {
      var n := |ops| - 1;
      var before, after := PutAll(env, st, ops[..n]).db, PutAll(env, st, ops).db;
      PutAllSorted(env, st, ops[..n]);
      PutAllKeys(env, st, ops[..n]);
      forall i | 0 <= i < |after| ensures |after[i].key| == 32 {
        InsertMember(before, AddressOf(env.sha3, ops[n].bundle), Serialized(env.codec, ops[n].bundle), after[i]);
      }
    }
  }

  predicate AllFlushed(ops: seq<PutOp>) {
    forall i | 0 <= i < |ops| :: ops[i].fault != FlushFails
  }

  /**
   What `len` is worth: on a store opened over addresses, and as long as the count has not
   wrapped, it is below the number of addresses exactly when more flushes failed than addresses were written over.
   With no failed flush it never is.
   */
  lemma {:induction false} LenAgainstAddresses(env: StoreEnv, db: Db, ops: seq<PutOp>)
    requires Sorted(db) && KeysAreAddresses(db) && |db| + |ops| < U64_LIMIT
    ensures var st, t := PutAll(env, OpenedStore(db), ops), TallyOf(env, OpenedStore(db), ops);
            && (st.count >= |Addresses(st.db)| <==> t.over >= t.unflushed)
            && (AllFlushed(ops) ==> st.count >= |Addresses(st.db)|)
  {
    PutAllCounts(env, db, ops);
    PutAllKeys(env, OpenedStore(db), ops);
    AddressesAreKeys(PutAll(env, OpenedStore(db), ops).db);
    TallyBounded(env, OpenedStore(db), ops);
    var st := PutAll(env, OpenedStore(db), ops);
    CountedBelowLimit(|db|, |st.db|, st.count, TallyOf(env, OpenedStore(db), ops));
  }

  lemma CountedBelowLimit(start: nat, stored: nat, count: u64, t: Tally)
    requires Counted(start, stored, count, t) && start + t.done < 0x1_0000_0000_0000_0000
    ensures count >= stored <==> t.over >= t.unflushed
  {
    assert count == start + t.done;
  }

  lemma {:induction false} TallyBounded(env: StoreEnv, st: StoreState, ops: seq<PutOp>)
    ensures TallyOf(env, st, ops).done <= |ops|
    ensures AllFlushed(ops) ==> TallyOf(env, st, ops).unflushed == 0
  {
    if ops != [] {
      TallyBounded(env, st, ops[..|ops| - 1]);
    }
  }

  /** A first put that fails at its flush leaves an address that `len` does not count. */
  lemma {:induction false} LenCanFallShort(env: StoreEnv, b: Bundle)
    ensures var st := PutAll(env, OpenedStore([]), [PutOp(b, FlushFails)]);
            st.count == 0 && Addresses(st.db) == [AddressOf(env.sha3, b)]
  {
    var ops := [PutOp(b, FlushFails)];
    assert ops[..0] == [];
    assert PutAll(env, OpenedStore([]), ops) == AfterPut(env, OpenedStore([]), b, FlushFails);
    var db := PutAll(env, OpenedStore([]), ops).db;
    assert db == [Pair(AddressOf(env.sha3, b), Serialized(env.codec, b))];
    assert db[..0] == [];
  }

  // ── The store object ──────────────────────────────────────────────

  class Store {
    const env: StoreEnv
    var db: Db
    var count: u64

    ghost function State(): StoreState
      reads this
    {
      StoreState(db, count)
    }

    constructor Open(env: StoreEnv, db: Db)
      ensures this.env == env && State() == OpenedStore(db)
    {
      this.env := env;
      this.db := db;
      this.count := |db| % 0x1_0000_0000_0000_0000;
    }

    method Put(b: Bundle, fault: Fault) returns (r: Result<Digest, string>)
      modifies this
      ensures State() == AfterPut(env, old(State()), b, fault)
      ensures r == match fault
                   case NoFault => Ok(AddressOf(env.sha3, b))
                   case WriteFails => Err("Content store write failed")
                   case FlushFails => Err("Content store flush failed")
    {
      var address := AddressOf(env.sha3, b);
      var bytes := Serialize(env.codec, b);
      if fault == WriteFails {
        return Err("Content store write failed");
      }
      db := Insert(db, address, bytes);
      if fault == FlushFails {
        return Err("Content store flush failed");
      }
      count := (count + 1) % 0x1_0000_0000_0000_0000;
      return Ok(address);
    }

    method GetBundle(address: Digest) returns (r: Result<Option<Bundle>, Wire.ParseError>)
      ensures r == Fetched(env, db, address)
    {
      match Get(db, address) {
        case None => return Ok(None);
        case Some(bytes) =>
          var b :- Deserialize(env.codec, bytes);
          return Ok(Some(b));
      }
    }

    method Exists(address: Digest) returns (found: bool)
      ensures found == Has(db, address)
    {
      found := Get(db, address).Some?;
    }

    method ListAddresses() returns (addresses: seq<Digest>)
      ensures addresses == Addresses(db)
    {
      addresses := [];
      for i := 0 to |db|
        invariant addresses == Addresses(db[..i])
      {
        assert db[..i + 1][..i] == db[..i];
        if |db[i].key| == 32 {
          addresses := addresses + [db[i].key];
        }
      }
      assert db[..|db|] == db;
    }
  }
}
