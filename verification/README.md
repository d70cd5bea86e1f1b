# Cachee: proofs about the cache daemon

A Dafny model of the parts of Cachee that hold state, and proofs of what they keep. Cachee caches computation
results together with their identity, lifecycle and audit evidence. The parts modelled, each in the form its code has:

- **Quota** (`Quota`, `QuotaProofs`, `QuotaReach`, `QuotaLimits`, `QuotaSchedules`): the shared per-key counters and the usage flusher, as
  an interleaving of atomic steps. Counters are u64 and wrap.
- **Audit log** (`Merkle`, `Inclusion`, `Chains`, `Audit`, `AuditChain`, `AuditRuns`): the hash chain, its verification, the Merkle
  anchors, the capped nonce set, and runs with failed writes, crashes and reopens.
- **Archive and content store** (`Wire`, `Characters`, `Fingerprints`, `Archive`, `ArchiveProofs`, `Layout`, `ContentStore`): the CAB wire format, its
  writer and cursor parser, content addresses, verdicts, and the store indexed by address.
- **Slots, commands and gate** (`Slots`, `Commands`, `Daemon`, `Agreement`, `Replay`, `Retelling`, `Gate`, `Sessions`): the
  lifecycle of entries, the commands over engine, registry, content store and log, cold start, and the checks a message passes first.
- **Answers** (`Book`, `BookProofs`, `Reading`): a second description of the daemon, kept from the words of the commands alone; that
  every run keeps to it; and what clients may rely on between their commands.
- **Overlapping commands** (`Regions`, `Overlap`, `Discipline`, `Telling`, `LogOverlap`): the same commands cut into the regions their locks
  protect, in every interleaving.

`Basics`, `OrderedMaps` and `Runs` are shared: bytes and integers, sled's ordered tree, runs of a step function.

Code that changes state is a class or a method whose contract gives its result and new state by a function of the
inputs and the old state; the lemmas are about those functions. `dafny verify dfyconfig.toml` checks the project.

## What is assumed

- SHA3-256 is any function from bytes to 32 bytes. Binding results say "equal, or these two inputs collide", and name the inputs:
  that some collision exists is always true and would say nothing.
- The JSON codecs are parameters. Audit entries read back as written and different events have different text
  (`Audit.JsonFaithful`). A signer identity reads back as written, its text cut short does not read, and the
  default identity's text is below 2^32 bytes (`Archive.CodecFaithful`). Identity texts in general are not assumed to
  be below 2^32 bytes: no injective codec on unbounded strings could keep that.
  `Witness.AuditCodecsExist` and `Witness.CodecExists` show that both assumptions can be met.
- Signature checks, Unicode upper-casing and the bytes of a string are parameters, and so are clock readings,
  signatures and the outcome of each disk write. sled is an ordered map; a write can fail before the insert, or after it at the flush.
- For results about a daemon that signs: its signatures verify under its public keys, and keys, signatures and identity fit the wire
  format (`Agreement.Sane`, `Agreement.SaneOp`, `Overlap.SaneAction`).
- The engine is a map with set, get, delete and an eviction that may drop any key between commands.

## Where code, documentation and expectation differ

The model follows the code.

- The Merkle loop is not a tree over leaves padded with copies of the last one, except for the leaf counts named
  by `Merkle.PadsEvenly`; at six leaves the roots differ.
- A swap that runs between another connection's `fetch_add` and `fetch_sub` lets the counter wrap, and the window it opens can
  then admit as many requests over the limit as it caught refusals; when the wrapped amount is later swapped out and its send
  fails, a later window can exceed the limit too. `QuotaReach` says from which states, and how far.
- The gate checks that a connection's key is still registered, but permits by the entry cloned at AUTH
  (src/daemon.rs:552-595), so a reload that takes write from a key does not reach connections that are already authenticated.
  `Gate.ReloadsThatMatter` says exactly which reloads matter.
- SET and DEL release their locks between one store and the next (src/daemon.rs:714-742, 800-816), so two that overlap on a key
  can leave the engine with a value its slot does not have. `Discipline.ConflictsAreExact` says when. They log in a region
  of their own too, so the log can end telling something else than the registry holds: an INVALIDATE that comes between a SET's slot and
  its log entry is followed by a creation. `LogOverlap.LogOverlapsAreExact` says when.
- Connections of one key with different limits, as after a reload, share one counter that also holds refusals still to subtract, so
  the one with the higher limit can be turned away early (`QuotaLimits.MixedLimits`).
- The documented wire layout (src/archive.rs:592-612) ends at the completeness byte; the code also writes fingerprint and identity.
- A struct can be read from a JSON array as well as from an object, so an identity's own text may be longer
  than the text it was read from. The normal form of accepted bytes therefore has one exception, at four gibibytes
  (`Witness.NormalFormCanFail`).
- `len` of the content store counts puts, not addresses, and does not count one whose flush failed.
- DEL logs a deletion only if the engine still held the key, so after an eviction the log keeps showing a slot the registry has dropped.
- GETVERIFIED looks the bundle up under the slot's address (src/cache_slot.rs:178-192), the hash of 64 bytes, while bundles are
  kept under the hash of 122 bytes (src/archive.rs:581-590). So it finds nothing and answers Unverified, after any run, unless
  two texts of these lengths collide (`Reading.NothingIsVerified`).
- SET with the word FP as its key slices past its start and panics before any store is touched; the model answers `Crashed` and changes nothing.

## Model

| member | source | states |
|---|---|---|
| `QuotaProofs.ExactQuota` | src/daemon.rs:516-548 | With any number of connections on one key and no flush: never more than the limit admitted; a request about to charge is turned away exactly when the limit has been admitted already; with no refusal under way the counter is the number admitted, the smaller of requests and limit |
| `QuotaLimits.MixedLimits` | src/daemon.rs:516-548 | The same with different limits on one key: no more than the highest is admitted, the counter is the number admitted plus the refusals pending, and a request is turned away early exactly when its own limit lies above the number admitted but not above the two together |
| `QuotaLimits.TwoLimitsTurnAwayEarly` | src/daemon.rs:516-548 | That happens: with limits one and two, a request is turned away at two although one was admitted |
| `QuotaProofs.OneCounterPerKey` | src/daemon.rs:519-533 | Racing first lookups end on one counter: a key keeps the counter it got, keys never share one, and every connection past its lookup holds its own key's |
| `QuotaProofs.UsageConserved` | src/daemon.rs:126-165 | In every interleaving counter + held by the flusher + acknowledged = admitted + refused but not yet subtracted, modulo 2^64 |
| `QuotaProofs.QuotaUnderFlushing` | src/daemon.rs:126-165 | With the flusher running, for every window: the exact count is the requests let through plus pending refusals plus what a failed send returned less the refusals the opening swap caught; a request is let through exactly when that count is at least zero and below the limit; the window admits at most the limit, the caught refusals and what a failed send took off; at most the limit while no swap caught any |
| `QuotaReach.WindowReach` | src/daemon.rs:134-163 | From any moment of any run, whatever is pending or under way, the furthest the gate can bring a window before the flusher goes on: limit + caught - returned if the count without its pending refusals is below the limit and enough connections can lift it to zero, otherwise no further than it is; and when it can come to exceed the limit |
| `QuotaReach.WindowOverrun` | src/daemon.rs:134-163 | In particular, with that count between zero and the limit and a connection that can go on, it can overrun the limit exactly when fewer came back than were caught |
| `QuotaReach.SwapOpens` | src/daemon.rs:134-134 | At the moment a swap catches p pending refusals, its window can be filled to exactly the limit plus p if more than p connections can go on, and admits nothing if not |
| `QuotaProofs.DirtySwapWraps` | src/daemon.rs:134-134 | A swap that catches a pending refusal lets the counter wrap to 2^64 - 1, so an empty window turns everything away |
| `QuotaSchedules.FailedSendOverrunsWindow` | src/daemon.rs:150-163 | A concrete schedule in which a clean window admits two requests under a limit of one, after an earlier dirty swap and a failed send |
| `QuotaSchedules.DirtySwapOverrunsWindow` | src/daemon.rs:134-134 | A concrete schedule in which the window a dirty swap opened admits two requests under a limit of one, with no failed send |
| `QuotaProofs.StepMoves` | src/daemon.rs:516-548 | Every action of a connection or of the flusher changes each counter by exactly one of a few moves |
| `Merkle.MerkleRoot` | src/audit.rs:307-337 | The level-by-level loop computes the recursive tree over the leaves in which a missing right half is a copy of the left, and makes at most n - 1 + ceil(log2 n) hash calls |
| `Merkle.NextLevel` | src/audit.rs:317-333 | The loop over pairs makes one level, an odd last node being hashed with itself |
| `Merkle.FoldIsTree` | src/audit.rs:307-337 | Folding levels and the recursive tree agree for any join |
| `Merkle.JoinCountBound` | src/audit.rs:307-337 | The number of hash calls is at most n - 1 + ceil(log2 n) |
| `Merkle.PaddingCondition` | src/audit.rs:307-337 | Padding with copies of the last leaf gives the same root, for every hash and all leaves, exactly for the leaf counts that stay odd under halving until a power of two; six is not one |
| `Merkle.MerkleBinding` | src/audit.rs:307-337 | Equally many leaves with one root are equal, or the two computations hash different inputs to one digest at the same step |
| `Inclusion.RootIncludes` | src/audit.rs:307-337 | From every leaf of any number of leaves, hashing at each level the left node before the right one, and a node without a right neighbour with itself, leads to the root, in as many steps as the tree is deep |
| `Inclusion.SmallRoots` | src/audit.rs:307-337 | The roots of no leaf, one, two and three, written out as hashes of concatenations |
| `Inclusion.OnlyTheLeaf` | src/audit.rs:307-337 | A way of the right length from position i to the root starts at leaf i and takes its siblings, or two different inputs with one digest stand at the same step |
| `OrderedMaps.U64Order` | src/audit.rs:189-192 | The byte order of big-endian keys is the numeric order of the sequence numbers |
| `OrderedMaps.GetInsert` | src/content_store.rs:31-33 | A read after an insert gives the new value at its key and the old value elsewhere |
| `Audit.AuditLog.Open` | src/audit.rs:134-165 | Opening recovers head, next sequence and leaves from the stored entries, or fails on an unreadable last one |
| `Audit.AuditLog.Append` | src/audit.rs:168-201 | The whole new state for every way the write can end, and what is returned |
| `Audit.AuditLog.VerifyChain` | src/audit.rs:204-234 | The loop computes the report that VerifyChainIsRight is about |
| `Audit.AuditLog.KeyHistory` | src/audit.rs:237-255 | The readable entries that concern the key, in order |
| `Audit.AuditLog.CheckNonce` | src/audit.rs:258-271 | Accepts exactly nonces not in the set; the set keeps them and is cleared to the new one above 100000 |
| `Audit.AuditLog.ComputeMerkleAnchor` | src/audit.rs:275-304 | Returns the Merkle root of exactly the entries since the last anchor and logs it, or fails as the append did or when there is nothing to anchor |
| `AuditChain.VerifyChainIsRight` | src/audit.rs:204-234 | Verification accepts exactly the databases whose entries can all be read and form an unbroken chain, and otherwise names the first entry at fault |
| `AuditChain.HeadBinding` | src/audit.rs:94-111 | Two verified logs that end on one hash agree, entry by entry from the end, on all that is hashed, or two entries equally far from the end collide |
| `AuditChain.TamperEvidence` | src/audit.rs:204-234 | A list drawn from a log's entries, with some deleted, moved or repeated, that still verifies is a prefix of the log, unless two of its entries collide or one hashes to zero |
| `AuditChain.AnchorBindsWindow` | src/audit.rs:287-298 | Windows of one size with one Merkle root in two verified logs hold the same content, or a collision is located |
| `AuditChain.PreimageBinding` | src/audit.rs:94-111 | The hashed bytes of an entry determine previous hash, timestamp, sequence and event |
| `AuditRuns.CrashAndReopen` | src/audit.rs:134-201 | After any mix of appends, anchors, failed writes, failed flushes and reopens the stored entries are numbered and verify whole, a reopen succeeds, and it recovers the state in memory exactly when no unflushed entry is left |
| `AuditRuns.ReopenAfterCleanRun` | src/audit.rs:134-165 | With no failed flush a reopen recovers head hash, next sequence and Merkle leaves |
| `AuditRuns.AppendStays` | src/audit.rs:168-201 | The entry of an append that succeeds keeps, through all that follows, its sequence number, event, clock reading, issuer, the hash before it, and the hash of these |
| `AuditRuns.AnchorTiling` | src/audit.rs:275-304 | Within a session windows and anchor entries tile the sequence numbers below the last anchor, each position in exactly one; bounds, counts and roots are those of the windows |
| `AuditRuns.TilingCovers` | src/audit.rs:287-302 | Every position below the last anchor belongs to exactly one window or anchor entry |
| `AuditRuns.NonceAccounting` | src/audit.rs:258-271 | After A accepted nonces the set holds 1 + (A-1) mod 100000 and was cleared (A-1) div 100000 times; no nonce is accepted more than once per clearing plus once |
| `Wire.Utf8IsScanned` | src/archive.rs:143-143 | The text check means the same as reading the bytes character by character under RFC 3629 |
| `Characters.TextIsScalars` | src/archive.rs:143-143 | Valid text is exactly what sequences of Unicode scalar values are written as |
| `Wire.NextBlock16` | src/archive.rs:1006-1014 | Reads a two-byte length and that many bytes, or fails at the end of the buffer; the cursor stays inside it |
| `Wire.NextBlock32` | src/archive.rs:1016-1028 | The same under a four-byte length |
| `Wire.WriteBlock16` | src/archive.rs:983-986 | Appends the truncated length and the data |
| `Fingerprints.ToBytes` | src/archive.rs:85-119 | Pushes exactly the fingerprint's wire form |
| `Fingerprints.FromBytes` | src/archive.rs:122-218 | The cursor parser agrees, errors included, with the reading function the round trip is proved about |
| `Fingerprints.ReadsFingerprint` | src/archive.rs:122-218 | A fingerprint whose strings fit their prefixes is read back as written, whatever follows it |
| `Fingerprints.DigestBindsHashes` | src/archive.rs:59-82 | One digest means the same three hashes, or a collision |
| `Fingerprints.DigestIgnoresBoundaries` | src/archive.rs:64-68 | Different fingerprints can have one digest: the version strings are hashed without separators |
| `Fingerprints.DaemonDigestBinds` | src/cache_slot.rs:281-309 | For fingerprints a SET can build the digest binds everything, or there is a collision |
| `Layout.DigestIsOf` | src/archive.rs:59-82 | What a fingerprint's digest is taken over, part by part |
| `Fingerprints.FromHexReads` | src/cache_slot.rs:281-309 | A fingerprint argument that writes at least 96 bytes in hexadecimal, in either case, gives the first three hashes written; any other text, malformed or short, gives the empty fingerprint |
| `Archive.PrimitiveToBytes` | src/archive.rs:362-372 | Filling the fixed buffer gives the 58-byte form |
| `Archive.PrimitiveFromBytes` | src/archive.rs:375-388 | Reads back exactly the first 58 bytes, or nothing if there are fewer |
| `Archive.AnchorToBytes` | src/archive.rs:466-471 | Filling the fixed buffer gives the 74-byte form |
| `Archive.Serialize` | src/archive.rs:613-675 | The pushed buffer is the wire form that WriterFollowsLayout places byte by byte |
| `Layout.WriterFollowsLayout` | src/archive.rs:613-675 | What is written, by position and number: every field, length, flag and code of the wire form of every bundle, in the source's order |
| `Archive.Deserialize` | src/archive.rs:681-777 | The cursor parser agrees, errors included, with the reading function that ParserFollowsLayout characterises |
| `Layout.ParserFollowsLayout` | src/archive.rs:681-777 | Bytes are accepted, and give exactly this bundle, if and only if each of its fields stands at its place in them |
| `Archive.AddressBinds` | src/archive.rs:581-590 | One content address means the same primitive, content hash and fingerprint digest, or a collision |
| `Layout.AddressIsOf` | src/archive.rs:581-590 | A bundle's address is the hash of bytes 6 to 96 of its file followed by its fingerprint's digest |
| `Archive.VerifyBundle` | src/archive.rs:828-946 | Positive exactly for a CAB1 bundle with a timestamp and matching hashes on which two families verify; free of warnings exactly when identity and fingerprint are present and the signer is not a development one |
| `ArchiveProofs.VerdictIs` | src/archive.rs:828-946 | All of a verdict: the three checks, the structure, and the reasons or warnings in their words and order |
| `ArchiveProofs.RoundTrip` | src/archive.rs:613-777 | Reading the wire form gives the bundle back for the canonical bundles and for no others |
| `ArchiveProofs.NormalForm` | src/archive.rs:681-777 | Whatever bytes are accepted, the bundle read fits its fields, and survives rewriting and rereading exactly when its identity's text fits the four-byte prefix |
| `ArchiveProofs.ShortInputIsStable` | src/archive.rs:681-777 | So every accepted input not within the JSON codec's slack of 2^32 bytes survives |
| `ArchiveProofs.OversizedIdentityIsLost` | src/archive.rs:669-672 | An identity accepted from a short text whose own text does not fit is replaced by the default |
| `Witness.NormalFormCanFail` | src/archive.rs:669-672 | That does happen: a faithful codec and accepted bytes whose bundle changes when it is written and read again |
| `ArchiveProofs.Prefixes` | src/archive.rs:681-777 | Every prefix: cut before the end of the fingerprint it is rejected, cut inside the identity it reads with the default identity, whole it reads back |
| `ArchiveProofs.AppendedBytesIgnored` | src/archive.rs:681-777 | Bytes after the full form change nothing |
| `ArchiveProofs.CoreStable` | src/archive.rs:681-760 | What the parser accepts of a buffer it accepts, with the same result and cursor, of every longer one |
| `Archive.CompressedSize` | src/archive.rs:959-978 | The size is the exact length of the wire form of every bundle, whether or not its fields fit |
| `Archive.TypeOf` | src/archive.rs:275-299 | Every code reads as a type that writes the same code, a custom one only when no name has it |
| `ContentStore.Store.Put` | src/content_store.rs:28-41 | The whole new state and the result, for every way the write can end |
| `ContentStore.Store.GetBundle` | src/content_store.rs:43-57 | The bundle parsed from what is stored at the address |
| `ContentStore.Store.Exists` | src/content_store.rs:59-62 | Whether the address is in use |
| `ContentStore.Store.ListAddresses` | src/content_store.rs:101-115 | All keys of the right length, in order |
| `ContentStore.ListsExactly` | src/content_store.rs:101-115 | The list has exactly the keys of thirty-two bytes, in order |
| `ContentStore.SelfCertifying` | src/content_store.rs:28-57 | After any run of puts of canonical bundles, failures included, an address is in use exactly if a put landed there, and looking it up gives exactly the last bundle that did, whose address computed again is the one asked for |
| `ContentStore.StoredIsLastPut` | src/content_store.rs:28-41 | The same for the stored bytes and any bundles, on any store |
| `ContentStore.LenAgainstAddresses` | src/content_store.rs:91-94 | The count is below the number of addresses exactly when more flushes failed than addresses were written over; never with no failed flush |
| `ContentStore.LenCanFallShort` | src/content_store.rs:34-38 | A first put that fails at its flush leaves an address that is not counted |
| `Slots.ReversibleIsLegal` | src/lifecycle.rs:103-111 | A state is reversible exactly when some transition out of it is legal |
| `Slots.LegalTable` | src/cache_slot.rs:203-242 | Legal are exactly the transitions out of Active and back to it from Expired or Deprecated |
| `Slots.LifecycleRun` | src/cache_slot.rs:203-242 | Whatever is attempted, the transitions that succeed alternate between leaving and entering Active and hold at most one terminal step, which is last |
| `Slots.CacheSlot.TransitionTo` | src/cache_slot.rs:203-242 | Succeeds exactly for legal transitions; a refusal changes nothing and says why |
| `Slots.CacheSlot.IsEvictable` | src/cache_slot.rs:248-250 | Exactly the slots that could still be revoked |
| `Slots.SlotAddressBinds` | src/cache_slot.rs:178-192 | One slot address means one value and fingerprint, or one of three located collisions |
| `Daemon.CacheDaemon.Handle` | src/daemon.rs:658-984 | Every command's whole effect on the four stores and its reply are those of the functions that DaemonKeepsBook and the laws of Reading are about |
| `BookProofs.DaemonKeepsBook` | src/daemon.rs:658-984 | After any run, with evictions, failed writes and restarts, engine, registry and every entry of the log are as in a book kept from the words of the commands alone, and every reply is the one the book gives |
| `BookProofs.StartsAreLogged` | src/daemon.rs:333-339 | After any run the log holds one start event for each restart whose append went through, in order, and no other |
| `Reading.ReadYourSet` | src/daemon.rs:680-798 | After a SET, until the key is set or deleted, dropped by the engine or the daemon restarted, GET answers exactly the bytes of its words and GETVERIFIED these and its fingerprint |
| `Reading.RevokedForGood` | src/daemon.rs:819-857 | After an INVALIDATE answered OK, until the key is set or deleted, STATE and GETVERIFIED answer Revoked with its reason and clock reading |
| `Reading.SupersededForGood` | src/daemon.rs:860-901 | After a SUPERSEDE answered OK they answer Superseded with the address the successor then had |
| `Reading.GoneForGood` | src/daemon.rs:800-816 | After a DEL, until the key is set, GET, GETVERIFIED and STATE answer Nil |
| `Reading.StateIsTold` | src/daemon.rs:904-913 | After a logged run without eviction STATE answers for exactly the keys the log tells of, with the fate it tells |
| `Reading.NothingIsVerified` | src/daemon.rs:1124-1127 | After any run GETVERIFIED answers Unverified, or the slot and the bundle found at its address collide |
| `Reading.VerifiedByTwo` | src/daemon.rs:1124-1160 | What a verified read says of a bundle it does find: fully verified exactly if two families verify, and what failed otherwise |
| `Daemon.CacheDaemon.Set` | src/daemon.rs:680-746 | SET: the arguments, strict mode, and the slot, bundle, engine and log entry that ThreeStoresAgree, SlotBundleIs and ReadYourSet are about |
| `Daemon.CacheDaemon.Delete` | src/daemon.rs:800-816 | DEL removes from engine and registry, and logs only if the engine had the key |
| `Daemon.CacheDaemon.Invalidate` | src/daemon.rs:819-857 | INVALIDATE revokes an active slot and logs it |
| `Daemon.CacheDaemon.Supersede` | src/daemon.rs:860-901 | SUPERSEDE links an active slot to the new one's address and logs it |
| `Daemon.CacheDaemon.GetVerified` | src/daemon.rs:1101-1242 | GETVERIFIED changes nothing but the log, and answers what ReadYourSet, RevokedForGood, GoneForGood and NothingIsVerified say |
| `Daemon.CacheDaemon.AnchorLog` | src/daemon.rs:970-980 | AUDITANCHOR |
| `Daemon.CacheDaemon.Start` | src/daemon.rs:320-368 | Starting over what is on disk gives the rebuilt registry, or fails when the log cannot be opened |
| `Commands.Exec` | src/daemon.rs:658-984 | Only SET, DEL, INVALIDATE and SUPERSEDE change engine, registry or content store, and a refused command changes nothing |
| `Agreement.ThreeStoresAgree` | src/daemon.rs:680-816 | After any run of commands, evictions, failed writes and restarts: engine values are slot values, slot addresses are right, a slot's creation time is the clock reading of the SET or restart that made it, and a key whose last SET reached the content store has a bundle there with its value's hash, its fingerprint and that clock reading, on which all three families verify if the daemon signs, with a positive verdict exactly if the reading was above zero; or a collision is located |
| `Agreement.RestartRecovers` | src/daemon.rs:342-363 | After any run a restart recovers a slot for every address in the content store, made from a stored bundle whose address starts the same way |
| `Agreement.SlotBundleIsGood` | src/daemon.rs:991-1091 | The bundle of a slot is canonical, carries the hash of its value, its fingerprint and its creation time, starts of its signatures in the primitive, and verifies if signed |
| `Agreement.SlotBundleIs` | src/daemon.rs:991-1091 | Every field of the bundle a slot is given, for a daemon that signs and for one that does not |
| `Replay.DaemonLogIsIntact` | src/daemon.rs:947-966 | In every reachable state the daemon's log verifies from end to end and can be reopened |
| `Replay.LogIsReplayable` | src/audit.rs:237-255 | For commands with successful appends and no eviction, replaying the history of any key gives exactly the state of its slot |
| `Retelling.LogTellsRegistry` | src/audit.rs:237-255 | For the same runs, reading the whole log back gives every registered key and no other, with its slot's exact address, fingerprint digest and fate: alive, revoked for this reason, or superseded by exactly this address |
| `Retelling.CommandTells` | src/daemon.rs:800-816 | One command keeps that, except exactly a DEL of a registered key the engine has dropped |
| `Replay.CommandReplays` | src/daemon.rs:800-816 | One command keeps a replayable history replayable, except exactly a DEL of a registered key the engine has dropped |
| `Replay.EvictionBreaksReplay` | src/daemon.rs:800-816 | That exception on a concrete run |
| `Replay.TransitionsInRun` | src/daemon.rs:841-853 | Every recorded transition did start from Active, and two in one history have a creation between them |
| `Replay.OneTransitionPerIncarnation` | src/daemon.rs:841-853 | The same for any history that replays |
| `Regions.InOneGoIsExec` | src/daemon.rs:714-816 | With nothing in between, the lock regions of a SET or a DEL together do exactly what the command does as one step |
| `Regions.SetIsSeen` | src/daemon.rs:714-742 | A SET from outside: registry, then content store, then engine, then log, and after each region nothing else |
| `Regions.DeleteIsSeen` | src/daemon.rs:800-816 | A DEL from outside: engine, then registry, then the log if the engine had the key |
| `Overlap.AnyInterleaving` | src/daemon.rs:714-816 | However the regions of any number of commands interleave, with evictions, failed writes and restarts that cut commands off: slot addresses are right, the log verifies whole, and once no SET of a key has still to persist, the last bundle put for it is that of its slot and is found in the content store, or a collision is located, unless that put failed or a cold start made the slot |
| `Discipline.OrderlyKeyIsBacked` | src/daemon.rs:733-742 | If no command on a key starts while a conflicting one is under way, the engine's value for the key is its slot's whenever no SET of it is pending |
| `Discipline.ConflictCanBreak` | src/daemon.rs:714-816 | Whenever a SET or DEL starts beside a conflicting one, some order of just their regions ends with an engine value that is not the slot's, or has no slot |
| `Discipline.ConflictsAreExact` | src/daemon.rs:714-816 | After any run without such a start, a command that starts can end in disagreement exactly when one that conflicts with it is under way: a SET of another value, or a SET against a DEL |
| `LogOverlap.SafeIsExact` | src/daemon.rs:714-901 | From any state of all the commands under way: they can end with the log not telling the registry exactly if some key is not safe, a condition on its slot, what the log has of it and how many commands of each kind have regions to come |
| `LogOverlap.MannerlyIsTold` | src/daemon.rs:714-901 | If every command that starts may start when it does, the log tells the whole registry whenever none is under way |
| `LogOverlap.LogOverlapsAreExact` | src/daemon.rs:714-901 | After any such run, a SET, DEL, INVALIDATE or SUPERSEDE that starts can end with the log not telling the registry exactly when it may not start: for a SET, a deletion of the key is yet to be logged or a DEL under way that the log would not match; for a DEL, what the engine and the log have of the key; for the others, a SET under way on the key or an unlogged address of the successor |
| `Gate.Pass` | src/daemon.rs:478-607 | With authentication required, exactly which messages reach a command; a connection changes only by an AUTH that succeeds or by losing all it had |
| `Gate.GateOverRuns` | src/daemon.rs:471-607 | Over all runs the three authentication fields are set and cleared together and hold the entry that the registry in force at the connection's last successful AUTH had under its hash; every command let through came from a hash registered at its check and is permitted by that entry |
| `Sessions.SessionLaw` | src/daemon.rs:471-653 | Over all runs a connection is authenticated exactly if its last AUTH with a secret found it registered and no revocation was answered since, and then holds that hash and entry; and every message is answered from that alone: not authenticated, over quota, revoked, no permission, or let through |
| `Sessions.OnlyLetThroughActs` | src/daemon.rs:596-607 | Only a message that is let through touches the stores, and does what its command does |
| `Gate.PermittedWhateverItSends` | src/daemon.rs:552-595 | Everything an authenticated connection can get let through is permitted by the entry now registered under its hash exactly if that entry has write or the one of its AUTH had not, which is known before the message |
| `Gate.ReloadsThatMatter` | src/daemon.rs:552-595 | Given the registries loaded one after the other, every run over them lets through only commands permitted by the entry registered at their check if and only if none takes write from a key that an earlier one gave it to; removing the key is always safe |
| `Gate.DemotedKeyStillWrites` | src/daemon.rs:552-595 | That exception on a concrete run: a key loses write in a reload and its SET is still let through |
| `Gate.ReadOnlyMessage` | src/daemon.rs:570-595 | A key without write and admin changes no engine, registry or content store, whatever it sends |
| `Gate.ReadersNeverWrite` | src/daemon.rs:570-595 | While no key with write or admin is registered, no run writes |
| `Gate.Connection.HandleAuth` | src/daemon.rs:619-653 | AUTH leaves the three fields as the function that SessionLaw is about: set from the registry, or cleared |
| `Gate.Connection.Admit` | src/daemon.rs:478-595 | The gate's order of checks, its decision and the new connection state |

## Left out

- ExactQuota: speaks of keys with one limit for the whole run; different limits on one key are the subject of `QuotaLimits.MixedLimits`.
- QuotaUnderFlushing: one limit per key too, and only counters whose operations and limit together stay below 2^64.
- WindowReach: speaks of what follows before the flusher goes on; its next swap opens the next window.
- LogTellsRegistry: the log holds neither a slot's value nor the time of its revocation, and failed appends are not covered; overlaps and evictions are, by `LogOverlap`.
- LogOverlapsAreExact: the runs have evictions and overlaps, but no restart and no failed append.
- LogIsReplayable: one key's history tells the kind of its state and the revocation reason; the successor's address takes the whole log.
- Append: requires room for another u64 sequence number; the runs leave a full log as it is.
- ThreeStoresAgree: speaks of slots made by SET; a slot rebuilt by a cold start has an empty value and only its fingerprint comes from the content store.
- AnchorTiling: speaks of one session, since the anchor position is not stored and starts at zero after a reopen.
- Handle: the text of replies (RESP framing, JSON, statistics of INFO) is modelled as data, not as bytes.
- DaemonKeepsBook: the number of bundles INFO reports is the content store's own count, which `ContentStore.LenAgainstAddresses` is about.
- StartsAreLogged: supposes that no flush of a start fails; the entry of one that does can be written over, as DaemonKeepsBook tells.
- AnyInterleaving: the regions are those the registry's and the log's locks delimit; within one, the content store and the engine are taken to act at once.
- Slot fields that no modelled code reads: cache expiry, trust level, validity window, provenance.
- The proof and authority arguments of a transition, which `transition` only copies into its record.
- `export`, `export_all`, `is_empty` and `last_anchor`, which add only easy members.
- Write conflict detection, trust scores, remote bundles, key rotation and supersession chains (the last are described but not implemented).
- Network, processes, configuration, key files, the CLI and the engine's own tiers.
