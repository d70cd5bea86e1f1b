/** The daemon itself: its four stores as objects, and the commands as they change them. */
module Daemon {
  import opened Basics
  import opened OrderedMaps
  import opened Fingerprints
  import opened Archive
  import opened Slots
  import opened ContentStore
  import opened Commands
  import A = Audit

  lemma {:induction false} RebuiltNext(env: DaemonEnv, db: Db, addresses: seq<Digest>, i: nat, now: u64)
    requires i < |addresses|
    ensures Rebuilt(env, db, addresses[..i + 1], now)
         == match Fetched(env.store, db, addresses[i])
            case Ok(Some(bundle)) =>
              var slot := NewSlot(env.store.sha3, [], bundle.fingerprint, now);
              Rebuilt(env, db, addresses[..i], now)[HexEncode(addresses[i][..16]) := slot]
            case _ => Rebuilt(env, db, addresses[..i], now)
  {
    assert addresses[..i + 1][..i] == addresses[..i];
  }

  lemma NoteApplies(env: DaemonEnv, w: World, event: Option<A.Event>, inputs: Inputs)
    ensures Apply(env, w, NoteOf(event), inputs)
         == w.(log := match event
                      case Some(e) => Logged(env, w.log, e, inputs)
                      case None => w.log)
  {
  }

  class CacheDaemon {
    const env: DaemonEnv
    const contentStore: Store
    const auditLog: A.AuditLog
    var engine: map<string, Bytes>
    var slots: map<string, Slot>

    ghost predicate Valid()
      reads this
    {
      contentStore.env == env.store && auditLog.env == env.audit
    }

    ghost function State(): World
      reads this, contentStore, auditLog
    {
      World(engine, slots, contentStore.State(), auditLog.State())
    }

    /** A daemon over stores already opened. */
    constructor (env: DaemonEnv, contentStore: Store, auditLog: A.AuditLog)
      requires contentStore.env == env.store && auditLog.env == env.audit
      ensures Valid() && this.env == env && this.contentStore == contentStore && this.auditLog == auditLog
      ensures State() == World(map[], map[], contentStore.State(), auditLog.State())
    {
      this.env, this.contentStore, this.auditLog := env, contentStore, auditLog;
      engine, slots := map[], map[];
    }

    /** The start of the daemon over what is on disk: open both stores, log the start, rebuild the registry. */
    static method Start(env: DaemonEnv, storeDb: Db, logDb: Db, start: A.Event, inputs: Inputs)
      returns (r: Option<CacheDaemon>)
      ensures r.Some? <==> ColdStart(env, storeDb, logDb, start, inputs).Some?
      ensures r.Some? ==> r.value.Valid() && r.value.env == env
      ensures r.Some? ==> fresh(r.value) && fresh(r.value.contentStore) && fresh(r.value.auditLog)
      ensures r.Some? ==> r.value.State() == ColdStart(env, storeDb, logDb, start, inputs).value
    {
      var store := new Store.Open(env.store, storeDb);
      var log := A.AuditLog.Open(env.audit, logDb, env.issuerId);
      if log.Err? {
        return None;
      }
      var daemon := new CacheDaemon(env, store, log.value);
      daemon.AppendToLog(start, inputs);
      daemon.RebuildSlots(inputs.now);
      return Some(daemon);
    }

    method RebuildSlots(now: u64)
      requires Valid()
      modifies this`slots
      ensures slots == Rebuilt(env, contentStore.db, Addresses(contentStore.db), now)
    {
      var addresses := contentStore.ListAddresses();
      var rebuilt: map<string, Slot> := map[];
      for i := 0 to |addresses|
        invariant rebuilt == Rebuilt(env, contentStore.db, addresses[..i], now)
      {
        RebuiltNext(env, contentStore.db, addresses, i, now);
        var bundle := contentStore.GetBundle(addresses[i]);
        if bundle.Ok? && bundle.value.Some? {
          var slot := new CacheSlot(env.store.sha3, [], bundle.value.value.fingerprint, now);
          rebuilt := rebuilt[HexEncode(addresses[i][..16]) := slot.Contents()];
        }
      }
      assert addresses[..|addresses|] == addresses;
      slots := rebuilt;
    }

    /** An append whose outcome is ignored. */
    method AppendToLog(event: A.Event, inputs: Inputs)
      requires Valid()
      modifies auditLog
      ensures auditLog.State() == Logged(env, old(auditLog.State()), event, inputs)
    {
      if auditLog.nextSequence + 1 < U64_LIMIT {
        var _ := auditLog.Append(event, inputs.loggedAt, inputs.logFault);
      }
    }

    method StoreSlot(key: string, value: Bytes, fingerprint: Fingerprint, inputs: Inputs)
      requires Valid()
      modifies this, contentStore, auditLog
      ensures Valid() && State() == Stored(env, old(State()), key, value, fingerprint, inputs)
    {
      var slot := new CacheSlot(env.store.sha3, value, fingerprint, inputs.now);
      slots := slots[key := slot.Contents()];
      if HasIdentity(slots[key].fingerprint) {
        var bundle := SlotToBundle(env, slots[key], inputs.signatures);
        var _ := contentStore.Put(bundle, inputs.putFault);
      }
      engine := engine[key := value];
      AppendToLog(CreatedEvent(env, key, slots[key]), inputs);
    }

    method Set(parts: seq<string>, inputs: Inputs) returns (reply: Reply)
      requires Valid() && |parts| >= 3
      modifies this, contentStore, auditLog
      ensures Valid() && State() == Apply(env, old(State()), SetEffect(env, parts), inputs) && reply == SetReply(env, parts)
    {
      var i := FpIndex(parts);
      if i == |parts| {
        if env.strictMode {
          return Failed("computation fingerprint required (strict mode)");
        }
        StoreSlot(parts[1], env.utf8(JoinWords(parts[2..])), EMPTY, inputs);
        return Done;
      }
      if i < 2 {
        return Crashed;
      }
      var hex := if i + 1 < |parts| then parts[i + 1] else "";
      StoreSlot(parts[1], env.utf8(JoinWords(parts[2..i])), FromHex(hex), inputs);
      return Done;
    }

    method Delete(key: string, inputs: Inputs) returns (reply: Reply)
      requires Valid()
      modifies this, auditLog
      ensures Valid() && State() == Removed(env, old(State()), key, inputs)
      ensures reply == Deleted(if key in old(engine) then 1 else 0)
    {
      var deleted := key in engine;
      engine := engine - {key};
      slots := slots - {key};
      if deleted {
        AppendToLog(A.EntryDeleted(key), inputs);
      }
      return Deleted(if deleted then 1 else 0);
    }

    method MoveSlot(key: string, to: EntryState, event: A.Event, inputs: Inputs) returns (reply: Reply)
      requires Valid() && key in slots
      modifies this, auditLog
      ensures var effect := MoveEffect(old(State()), key, to, event);
              Valid() && State() == Apply(env, old(State()), effect, inputs) && reply == MoveReply(old(slots)[key], effect)
    {
      var slot := new CacheSlot.From(slots[key]);
      var moved := slot.TransitionTo(to);
      match moved {
        case Ok(_) =>
          slots := slots[key := slot.Contents()];
          AppendToLog(event, inputs);
          return Done;
        case Err(refusal) =>
          return Failed(RefusalText(refusal));
      }
    }

    method Invalidate(key: string, reason: string, inputs: Inputs) returns (reply: Reply)
      requires Valid()
      modifies this, auditLog
      ensures Valid() && State() == Apply(env, old(State()), InvalidateEffect(old(State()), key, reason, inputs), inputs)
      ensures reply == InvalidateReply(old(State()), key, reason, inputs)
    {
      if key !in slots {
        return Failed("key not found");
      }
      reply := MoveSlot(key, Revoked(reason, inputs.now, None),
                        A.StateTransition(key, "Active", "Revoked", "System", Some(reason)), inputs);
    }

    method Supersede(oldKey: string, newKey: string, inputs: Inputs) returns (reply: Reply)
      requires Valid()
      modifies this, auditLog
      ensures Valid() && State() == Apply(env, old(State()), SupersedeEffect(old(State()), oldKey, newKey), inputs)
      ensures reply == SupersedeReply(old(State()), oldKey, newKey)
    {
      if newKey !in slots {
        return Failed("new key not found");
      }
      var successor := slots[newKey].contentAddress;
      if oldKey !in slots {
        return Failed("old key not found");
      }
      reply := MoveSlot(oldKey, Superseded(successor),
                        A.StateTransition(oldKey, "Active", SupersededBy(newKey), "System", None), inputs);
    }

    method VerifyRead(slot: Slot) returns (verification: Verification, checks: Option<Cryptographic>)
      requires Valid()
      ensures (verification, checks) == VerifySlot(env, State(), slot)
    {
      if !HasIdentity(slot.fingerprint) {
        return Unverified, None;
      }
      var found := contentStore.GetBundle(slot.contentAddress);
      if found.Err? || found.value.None? {
        return Unverified, None;
      }
      var c := VerifyBundle(env.verifiers, found.value.value).cryptographic;
      if c.twoOfThree {
        return FullyVerified(c.mldsaValid && c.falconValid && c.slhdsaValid), Some(c);
      }
      return VerificationFailed("signature check failed: mldsa=" + BoolWord(c.mldsaValid) + ", falcon="
                                + BoolWord(c.falconValid) + ", slhdsa=" + BoolWord(c.slhdsaValid)), Some(c);
    }

    method LogVerification(key: string, verification: Verification, c: Option<Cryptographic>, inputs: Inputs)
      requires Valid()
      modifies auditLog
      ensures auditLog.State() == match VerifiedEvent(key, verification, c)
                                  case Some(event) => Logged(env, old(auditLog.State()), event, inputs)
                                  case None => old(auditLog.State())
    {
      match verification {
        case FullyVerified(all) =>
          var checks := c.GetOr(Cryptographic(false, false, false, false, false));
          AppendToLog(A.VerificationPerformed(key, checks.mldsaValid, checks.falconValid, checks.slhdsaValid,
                                              checks.twoOfThree, all), inputs);
        case VerificationFailed(reason) =>
          AppendToLog(A.VerificationFailed(key, reason), inputs);
        case Unverified =>
      }
    }

    method GetVerified(key: string, inputs: Inputs) returns (reply: Reply)
      requires Valid()
      modifies auditLog
      ensures Valid() && State() == Apply(env, old(State()), VerifiedEffect(env, old(State()), key), inputs)
      ensures reply == VerifiedReply(env, old(State()), key)
    {
      if key !in engine {
        return Nil;
      }
      if key !in slots {
        return Verified(ReadResponse(engine[key], EMPTY, Unverified, Active));
      }
      var slot := slots[key];
      var verification, c := VerifyRead(slot);
      NoteApplies(env, State(), VerifiedEvent(key, verification, c), inputs);
      LogVerification(key, verification, c, inputs);
      return Verified(ReadResponse(engine[key], slot.fingerprint, verification, slot.state));
    }

    method AnchorLog(inputs: Inputs) returns (reply: Reply)
      requires Valid()
      modifies auditLog
      ensures Valid() && State() == AnchorTaken(env, old(State()), inputs) && reply == AnchorReply(env, old(State()), inputs)
    {
      if auditLog.nextSequence + 1 >= U64_LIMIT {
        return Failed("audit log full");
      }
      var root := auditLog.ComputeMerkleAnchor(inputs.loggedAt, inputs.logFault);
      match root {
        case Ok(r) => return AnchorRoot(r);
        case Err(e) => return Failed(e);
      }
    }

    /** `handle_resp`. */
    method Handle(parts: seq<string>, inputs: Inputs) returns (reply: Reply)
      requires Valid()
      modifies this, contentStore, auditLog
      ensures Valid() && (State(), reply) == Exec(env, old(State()), parts, inputs)
    {
      if parts == [] {
        return Failed("empty command");
      }
      var verb := VerbIn(env, parts);
      if |parts| < WordsNeeded(verb) {
        return Failed("unknown command");
      }
      match verb {
        case PingVerb => return Pong;
        case SetVerb => reply := Set(parts, inputs);
        case GetVerb =>
          if env.safeRead {
            return Failed("GET is disabled in safe mode");
          }
          return if parts[1] in engine then Raw(engine[parts[1]]) else Nil;
        case GetVerifiedVerb => reply := GetVerified(parts[1], inputs);
        case DelVerb => reply := Delete(parts[1], inputs);
        case InvalidateVerb => reply := Invalidate(parts[1], JoinWords(parts[3..]), inputs);
        case SupersedeVerb => reply := Supersede(parts[1], parts[2], inputs);
        case StateVerb => return if parts[1] in slots then StateOf(slots[parts[1]].state) else Nil;
        case InfoVerb => return Info(|slots|, contentStore.count);
        case AuditLogVerb =>
          var history := auditLog.KeyHistory(parts[1]);
          return History(history);
        case AuditVerifyVerb =>
          var report := auditLog.VerifyChain();
          return Chain(report);
        case AuditAnchorVerb => reply := AnchorLog(inputs);
        case _ => return Failed("unknown command");
      }
    }
  }
}
