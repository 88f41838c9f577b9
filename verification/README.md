# tlscap: reassembly, decryption and dissection, proved

tlscap reads captured TCP frames, reassembles each direction of each connection, cuts the
stream into TLS records, decrypts them with logged secrets, feeds the plaintext to a dissector
and writes one JSON object per line. This project models that pipeline in Dafny and proves what
it promises over every input and every run.

## Layout

| files | what they hold |
|---|---|
| `Reassembly`, `ReassemblySteps`, `ReassemblyRuns`, `ReassemblyOutcomes`, `StreamReassembler` | the TCP reassembler: its transitions on values, what one call keeps, what every run keeps, what each arrival comes to, and the object with its in-place fields and loops |
| `Streaming` | cutting a growing stream into self-delimited items; TLS framing as an instance |
| `RecordProtection`, `Keylogs`, `Decryption`, `DecryptionRuns`, `Sealing`, `IdealDecryption` | nonces, padding, key derivation, the key log, trial decryption with counters and caches, and its runs; `Sealing` is the sending side, by the standards alone |
| `Fields`, `Pipeline`, `Orchestrator` | one connection and the connection table as functions, and the orchestrator object that refines them |
| `TableRuns`, `ConnectionRuns`, `SyncRuns`, `DissectionRuns`, `EndToEnd`, `RecordOutcomes` | theorems over whole captures and whole connections |
| `Incarnations`, `Sessions`, `SessionExample` | the table seen one incarnation at a time; from the streams endpoints send to the messages of the table run; the assumptions met together |
| `Calendar`, `Timestamps`, `Json`, `Ndjson`, `NdjsonLines` | dates, pcapng time, and the NDJSON writer with a parser that reads it back |

An object of the program (`StreamReassembler`, `ConnectionState`, `Orchestrator`) is a class; each
of its methods is proved equal to a function on the object's abstract state, and the theorems are
about those functions. `BTreeMap` is the list of its bindings in key order. AEAD, HKDF and HMAC are
parameters (`Crypto`); a dissector is any function of port and buffer. Clock readings and the key
log in force for each record are inputs carried by the frame that reads them, so every theorem
holds for every clock and every reload schedule.

## Main results

- **Lossless prefix.** Whatever the order, duplication, overlap, wrap-around or eviction, the bytes
  handed out followed by those queued are the true stream up to its first hole
  (`LosslessPrefix`), for streams of at most 2^32 bytes. The bound is exact: every honest run that
  reports no loss keeps all it was given if and only if the stream is within it
  (`LosslessExactlyWithinSequenceSpace`), because an in-order segment is thrown away as a duplicate
  if and only if it is no longer than the whole multiples of 2^32 already delivered
  (`InOrderDiscardedExactlyWhenWrapped`); `SilentLossPastSequenceSpace` is the run.
- **No silent loss, confluence.** A position was pushed if and only if it is delivered, pending or in
  a reported eviction (`NoSilentLoss`); loss-free runs that push the same positions deliver the
  same bytes (`Confluence`).
- **Limits.** An arrival is redundant, delivered or made to wait, and a waiting one makes the gap be
  given up if and only if the arrival that opened it is longer ago than the age limit or a cap is
  exceeded (`PushIsExact`, `GapIsGivenUpExactly`). A direction is desynchronised if and only if one
  of its segments did so (`DesyncExactlyOnAbandonedGap`); frames within the limits never do, so they
  yield everything before the first hole (`WithinLimitsYieldsEverything`).
- **Framing.** Until a gap is abandoned, a direction yields exactly the length-delimited frames of
  the hole-free prefix, however the stream was segmented (`RecordsAreFramesOfPrefix`,
  `SegmentationIsIrrelevant`), untouched by the other direction (`DirectionsAreIndependent`).
- **Decryption.** Caches are invisible while no secret is rebound (`CachingIsInvisible`), and they
  survive a reload if and only if it derives the same key for everything cached
  (`CachesSurviveReload`). Under an ideal AEAD every in-order record opens to what was sent
  (`StaysInStep`); once a protected record is passed over unopened, no later one of its generation
  and direction opens (`MissedRecordIsFatal`); in closed form, a record opens if and only if it and
  all its predecessors were presented with their secret logged (`OpensExactlyWhileKeyed`). The
  sender in these theorems protects its records as RFC 8446, RFC 5246 and RFC 5288 say, in `Sealing`,
  with names, keys, nonces and associated data of its own.
- **Outcomes.** In any capture every record is counted under the outcome it is due, told from the
  records alone (`FrameOutcomesAreDue`), and every message names the endpoints and the time of the
  frame that completed it (`MessagesNameTheirFrame`).
- **Table.** Connections do not interfere (`InterleavingIndependence`), a key is present exactly
  while its incarnation is open (`TableHoldsOpenConnections`), its entry and its messages are those
  of a connection fed that incarnation's frames alone (`TableIsLatestIncarnation`), and openings
  are conserved.
- **Dissection.** The split of application data into records is invisible as long as no incomplete
  message outgrows the cap (`RecordSplitIsInvisible`), every byte of an entry's plaintext is
  consumed, kept or dropped (`TableConservesPlaintext`), bytes are dropped if and only if what the
  dissector leaves exceeds the cap, and then exactly the excess (`DissectKeepsWhatFits`,
  `ConnectionDropsExactly`), and the discard counter is exactly what was dropped
  (`DropsAreCounted`).
- **End to end.** In any capture, of any number of connections, the messages emitted for an honest
  session carry, in order, exactly the application plaintexts its endpoints protected in the
  records that end before the first uncaptured byte of the stream (`CaptureRevealsSession`).
  Segments may be cut, reordered, repeated or lost, and either direction may desynchronise: then
  the records are those extracted before.
- **Output.** `civil_from_days` is exact for every day number; every line written parses back to the
  object it was written for, and there are exactly max(1, n) of them; the object tells the message's
  addresses, ports, time and data by name (`LineTellsMessage`) and all occurrences of each selected
  group in order (`GroupsAsSelected`, `ValuesInOrder`).

Connection-level theorems are stated of `Live`, the life of one connection. After any capture the
entry of a key, and what its latest incarnation emitted and dropped, are those of such a life
(`TableIsLatestIncarnation`); an earlier incarnation is the latest of a shorter capture.

## Assumptions

- *Ideal AEAD* (`Ideal`): `open` succeeds exactly on what was sealed under the same algorithm, key,
  nonce and associated data, relative to the set of seals the endpoints made. It is used only in
  `IdealDecryption`, `EndToEnd` and `Sessions`.
- *Key separation* (`Separated`): a direction's handshake and application keys differ.
- *Genuine records* (`Genuine`): a record's bytes are not by accident the ciphertext of another.
- *No collision* (`Distinguishes13`, `Distinguishes12`): key derivation tells two given secrets
  apart. Used only where a stale key is related to the secrets instead of to the derived keys.
- *Honest sessions* (`HonestSession`, `Captures`): each endpoint numbers its protected records, the
  server's first record is its hello, every log in force holds the connection's secrets, and the
  hellos are handled before the records that need them.

They can be met together: `IdealExists` gives an ideal AEAD for any set of seals, and
`FrameRevealsContent` a session that meets every one of them and yields a message of any content.

## Where the code and its comments differ

- `AuthFailed` is described as "every combination failed to authenticate"; the code returns `NoKey`
  then, and `AuthFailed` only for a body too short for TLS 1.2 (src/connection.rs:142-150, 282-286, 320).
  The model follows the code.
- `entry_count` is described as all non-comment, non-blank lines; the code counts parsed bindings only
  (src/keylog.rs:64-66, 97).
- A connection whose two endpoints are equal is never closed by FIN, since all its frames count as
  client to server (src/orchestrator.rs:462-478).
- Resolutions finer than nanoseconds are clamped, so the result is then exact only for zero ticks
  (src/pcap_input.rs:319-323).

## Model

| member | source | states |
|---|---|---|
| `StreamReassemblers.StreamReassembler.constructor` | src/reassembly.rs:127-138 | a new reassembler is empty, unanchored and satisfies the invariant |
| `StreamReassemblers.StreamReassembler.SetInitialSequence` | src/reassembly.rs:147-151 | anchors the stream once; the first call wins |
| `StreamReassemblers.StreamReassembler.PushPacket` | src/reassembly.rs:164-176 | an arrival moves the object's state and reports its outcome as the specification function does, keeping the length fields and the invariant |
| `StreamReassemblers.StreamReassembler.PushAt` | src/reassembly.rs:178-225 | duplicate, trimmed, delivered and buffered cases, with the drain that follows a delivery |
| `StreamReassemblers.StreamReassembler.Deliver` | src/reassembly.rs:227-231 | appends one segment and advances the next-expected position by its length |
| `StreamReassemblers.StreamReassembler.DrainPending` | src/reassembly.rs:233-266 | the loop moves out exactly the segments the recursive drain delivers, and resets the gap clock when none are left |
| `StreamReassemblers.StreamReassembler.BufferPending` | src/reassembly.rs:268-307 | keeps the longer of two segments at one position, and applies the three limits |
| `StreamReassemblers.StreamReassembler.EvictOldest` | src/reassembly.rs:309-328 | the loop gives up the fewest lowest-keyed segments that restore both caps and reports their bytes |
| `StreamReassemblers.StreamReassembler.Peek` | src/reassembly.rs:344-354 | the first min(n, available) queued bytes, nothing consumed |
| `StreamReassemblers.StreamReassembler.TakeBytes` | src/reassembly.rs:359-388 | the loop returns the first n queued bytes with their pieces and leaves the rest |
| `Reassembly.EvictCount` | src/reassembly.rs:309-322 | least number of leading segments whose removal restores both caps |
| `ReassemblySteps.InsertIsUpdate` | src/reassembly.rs:273-284 | insertion replaces exactly the binding of the same key |
| `ReassemblySteps.DrainCovers` | src/reassembly.rs:233-266 | draining neither loses nor invents a stream position |
| `ReassemblySteps.DrainStops` | src/reassembly.rs:254-256 | after draining, every pending key lies strictly above the next-expected position |
| `ReassemblySteps.PushKeepsValid` | src/reassembly.rs:178-329 | every push keeps keys sorted and above the next position, both caps, and a gap clock exactly while something is pending; the position never goes back |
| `ReassemblySteps.EvictionIsExact` | src/reassembly.rs:286-328 | the reported bytes are those evicted: all of them when too old, else the least key-order prefix restoring both caps; nothing is evicted otherwise |
| `ReassemblySteps.PushLosesNothing` | src/reassembly.rs:178-329 | a position is delivered, pending or evicted after a push exactly if it was known before or carried by it |
| `ReassemblySteps.PushHonest` | src/reassembly.rs:192-214 | an honest push extends the queue by exactly the stream between the old and the new position |
| `ReassemblySteps.PushSourced` | src/reassembly.rs:192-204 | trimming and draining keep every segment equal to the packet range it names |
| `ReassemblySteps.TakeSplits` | src/reassembly.rs:359-388 | taken bytes are the first n, the rest follow, the pieces total n |
| `ReassemblySteps.TakeSourced` | src/reassembly.rs:372-383 | concatenating the packet ranges of the pieces gives exactly the bytes taken |
| `ReassemblyOutcomes.PushIsExact` | src/reassembly.rs:164-329 | every arrival is redundant, delivered or made to wait, and reported so; a waiting one replaces or adds its binding, and the gap is given up, whole when open longer than the age limit, else by the fewest segments when a cap is exceeded, exactly then |
| `ReassemblyOutcomes.ClockIsOpening` | src/reassembly.rs:280-288 | in every run the gap clock reads when the arrival that opened the gap still open came |
| `ReassemblyOutcomes.GapIsGivenUpExactly` | src/reassembly.rs:286-307 | in every run a waiting arrival gets its gap abandoned exactly when the one that opened it is longer ago than the age limit, everything then being given up, or a cap is exceeded |
| `ReassemblyRuns.RunKeepsValid` | src/reassembly.rs:233-329 | every reachable state satisfies the invariant, and the bytes reported are the bytes evicted |
| `ReassemblyRuns.RelativeIsOffset` | src/reassembly.rs:153-159 | the wrapping difference is the offset modulo 2^32, hence the offset exactly below 2^32 |
| `ReassemblyRuns.LosslessPrefix` | src/reassembly.rs:153-266 | over every honest run of at most 2^32 bytes, bytes taken followed by bytes queued are the stream up to the next-expected position |
| `ReassemblyRuns.InOrderDiscardedExactlyWhenWrapped` | src/reassembly.rs:153-190 | an in-order segment is discarded as a duplicate exactly when no longer than the whole multiples of 2^32 delivered; one of at most 2^32 bytes is delivered exactly below 2^32 |
| `ReassemblyRuns.SilentLossPastSequenceSpace` | src/reassembly.rs:153-190 | for every longer stream, the honest in-order run that loses its byte number 2^32 with nothing reported or pending |
| `ReassemblyRuns.LosslessExactlyWithinSequenceSpace` | src/reassembly.rs:153-190 | all honest runs that report no loss keep all they were given exactly for streams of at most 2^32 bytes |
| `ReassemblyRuns.NoSilentLoss` | src/reassembly.rs:178-329 | over every run, a position was pushed exactly if it is delivered, pending or in a reported eviction |
| `ReassemblyRuns.DeliveredIsLongestCoveredPrefix` | src/reassembly.rs:206-214 | with nothing reported lost, the delivered length is the least position never pushed |
| `ReassemblyRuns.Confluence` | src/reassembly.rs:178-266 | loss-free runs pushing the same positions of one stream, in any order and cut, deliver the same bytes |
| `ReassemblyRuns.ArrivalOrderIsIrrelevant` | src/reassembly.rs:178-266 | in particular runs of the same arrivals, in any order and with any repetition |
| `ReassemblyRuns.Provenance` | src/reassembly.rs:239-259 | over every run, the pieces handed out name, in order, exactly the bytes handed out |
| `Streaming.ParseAppend` | src/orchestrator.rs:675-701 | parsing the leftover with new bytes continues the parse of the whole |
| `Streaming.ChunkingIsIrrelevant` | src/orchestrator.rs:649-655 | however a stream is cut, items and tail are those of the whole stream |
| `Framing.RecordsAreDelimited` | src/orchestrator.rs:541-554 | a recognised record makes progress and is not changed by later bytes |
| `Framing.RecordsPartition` | src/orchestrator.rs:546-554 | the records are well formed and, with the remainder, make up the stream |
| `Framing.RecordsRoundTrip` | src/orchestrator.rs:541-554 | any list of records followed by a partial one is recovered exactly |
| `Framing.FramedIsWhole` | src/orchestrator.rs:541-554 | a record sent with a big-endian length is recognised whole, whatever follows it |
| `Framing.RecordIsFramed` | src/orchestrator.rs:546-549 | and only such byte strings are records |
| `Framing.PartIsNotWhole` | src/orchestrator.rs:543-553 | no proper prefix of a record is taken for one |
| `RecordProtection.NonceInPlace` | src/tls13.rs:134-141 | the loop leaves the IV exclusive-ored with the big-endian sequence number |
| `RecordProtection.NonceInjective` | src/tls13.rs:134-141 | sequence numbers below 2^64 never share a nonce |
| `RecordProtection.PopPadding` | src/tls13.rs:188-192 | the loop removes trailing zeros and the type byte, failing on all zeros |
| `RecordProtection.UnpadRoundTrip` | src/tls13.rs:188-213 | content and type are recovered for every content and padding exactly when the type is nonzero |
| `RecordProtection.UnpadIsPadding` | src/tls13.rs:188-192 | whatever unpads is the padding of what it unpads to |
| `RecordProtection.Aad12Injective` | src/tls12.rs:134-142 | TLS 1.2 associated data determines the sequence number below 2^64 |
| `RecordProtection.ComputePHash` | src/tls12.rs:51-63 | the loop computes the first bytes of the unbounded HMAC block stream |
| `RecordProtection.PHashIsOneStream` | src/tls12.rs:51-63 | asking for fewer bytes yields a prefix of asking for more |
| `RecordProtection.DirectionsPartitionKeyBlock` | src/tls12.rs:105-114 | the two directions' keys and salts are disjoint and exhaust the key block |
| `Keylogs.Parse` | src/keylog.rs:70-104 | looking up a pair in the parsed log gives the secret of the last line that binds it; the count is that of bindings |
| `Keylogs.LookupIsLastBinding` | src/keylog.rs:93-112 | lookup equals the last binding line |
| `Keylogs.GrownLogOverlays` | src/keylog.rs:70-104 | parsing a grown log is the overlay of the two parses, and counts add |
| `Keylogs.SnapshotsAgree` | src/keylog.rs:70-112 | every earlier snapshot of a log that never rebinds agrees with the final log |
| `Sealing.NonceIsPerRecord` | src/tls13.rs:134-141 | the nonce is the IV differing, bit by bit, by the sequence number padded to twelve octets (section 5.3 of RFC 8446) |
| `Sealing.AadIsHeader` | src/tls13.rs:244-248 | the associated data is the record's header (section 5.2 of RFC 8446) |
| `Sealing.DerivesTrafficKeys` | src/tls13.rs:43-131 | key and IV are expanded with the hash and key length of each suite (section 7.3 of RFC 8446) |
| `Sealing.LookupIsLastNamed` | src/keylog.rs:29-112 | the secret looked up for a generation and direction is the one last logged under its name |
| `Sealing.PHashIsExpansion` | src/tls12.rs:51-63 | P_hash is the iterated HMAC from A(1) (section 5 of RFC 5246) |
| `Sealing.DerivesWriteKeys` | src/tls12.rs:28-123 | the keys are those of section 6.3 of RFC 5246: label, server random, client random; client key, server key, client IV, server IV; SHA-384 exactly for AES-256 |
| `Sealing.AadIsAdditionalData` | src/tls12.rs:132-142 | sequence number, type, version and plaintext length (section 6.2.3.3 of RFC 5246) |
| `Sealing.NonceIsGcmNonce` | src/tls12.rs:125-130 | salt, then explicit nonce (section 3 of RFC 5288) |
| `Decryption.HelloRandom` | src/connection.rs:326-333 | the random is bytes 6 to 38, present exactly for a body of at least 38 bytes and the wanted handshake type |
| `Decryption.HelloRandomRoundTrip` | src/connection.rs:326-333 | the random of any well-formed hello of the wanted type is recovered, and of no other type |
| `Decryption.ConnectionState.constructor` | src/connection.rs:162-171 | counters zero, caches empty, server random unknown |
| `Decryption.ConnectionState.LearnServerRandom` | src/connection.rs:183-187 | first call wins and alone returns true |
| `Decryption.ConnectionState.Process` | src/connection.rs:199-215 | TLS 1.3 first, TLS 1.2 if that fails, as the specification function |
| `Decryption.ConnectionState.Process13` | src/connection.rs:217-262 | the nested loops stop at the first candidate that opens, filling caches on the way |
| `Decryption.ConnectionState.TryCandidate` | src/connection.rs:239-258 | one trial settles the record, or goes on to the next |
| `Decryption.ConnectionState.Process12` | src/connection.rs:264-321 | the AES-GCM loop, with its missing-key and short-body exits |
| `DecryptionRuns.DecryptCounts` | src/connection.rs:83-126 | a success advances exactly the counter of the version and generation opened, a failure none, the other direction is untouched |
| `DecryptionRuns.Try13IsPick` | src/connection.rs:233-261 | with sound caches, TLS 1.3 trial decryption is that with keys derived afresh |
| `DecryptionRuns.Try12IsPick` | src/connection.rs:299-320 | the same for TLS 1.2 |
| `DecryptionRuns.DecryptIsResolve` | src/connection.rs:199-321 | cached decryption equals uncached decryption and leaves caches sound |
| `DecryptionRuns.CachesStaySound` | src/connection.rs:55-120 | over every run under logs that never rebind, each cached key equals the key derived from the full log |
| `DecryptionRuns.CachingIsInvisible` | src/connection.rs:55-120 | the outcomes of every run equal those of the run with caches emptied before each record |
| `DecryptionRuns.StaleAfterRebinding` | src/connection.rs:69-80 | a cached TLS 1.3 key is that of a reloaded log exactly when both derive the same key, hence when the secret is the same unless derivation collides |
| `DecryptionRuns.StaleAfterRebinding12` | src/connection.rs:103-120 | the same for a cached TLS 1.2 key and the master secret |
| `DecryptionRuns.CachesSurviveReload` | src/connection.rs:55-120 | sound caches stay sound across a reload exactly when it derives the same key for everything cached |
| `IdealDecryption.TrialOrder` | src/connection.rs:233-261 | whatever the AEAD, a record opens under the first candidate that opens it: handshake before application, AES-128, AES-256, ChaCha20, and TLS 1.3 before TLS 1.2 |
| `IdealDecryption.OwnSealOpens` | src/connection.rs:55-120 | what an endpoint seals by the standards has the key, nonce and associated data it is opened under |
| `IdealDecryption.GenuineOutcome` | src/connection.rs:233-320 | a genuine record opens only as what was sent and at its own sequence number, surely when keyed and due, and plaintext never opens |
| `IdealDecryption.StaysInStep` | src/connection.rs:189-321 | with in-order senders every record opens to what was sent and every counter is the number sent, for any interleaving |
| `IdealDecryption.CounterTrailsSender` | src/connection.rs:83-91 | a counter never runs ahead of its sender, and has kept up exactly if every record so far opened |
| `IdealDecryption.OpensExactlyAfterItsPredecessors` | src/connection.rs:194-261 | with senders that number their records, a record opens exactly when its secret is logged and every earlier one of its generation and direction opened |
| `IdealDecryption.MissedRecordIsFatal` | src/connection.rs:194-198 | once a protected record has been passed over unopened, no later one of its generation and direction opens and their counter stays |
| `IdealDecryption.OpensExactlyWhileKeyed` | src/connection.rs:189-321 | a record opens exactly when it and all its predecessors were presented with their secret logged |
| `Orchestrators.Orchestrator.constructor` | src/orchestrator.rs:336-356 | empty table, zero counters |
| `Orchestrators.Orchestrator.ProcessFrame` | src/orchestrator.rs:421-529 | table, counters and messages after a frame are those of the specification, eviction included |
| `Orchestrators.Orchestrator.AbsorbFrame` | src/orchestrator.rs:455-514 | direction labelling, reassembly and record handling for one frame |
| `Orchestrators.Orchestrator.ReceiveFrame` | src/orchestrator.rs:464-511 | closing flags, reassembly, gap counters |
| `Orchestrators.Orchestrator.ReceiveSide` | src/orchestrator.rs:464-505 | anchoring on SYN, pushing, and the desync latch of one direction |
| `Orchestrators.Orchestrator.AnchorSide` | src/orchestrator.rs:464-482 | the FIN latch, and the anchor at the byte after a SYN |
| `Orchestrators.Orchestrator.DrainRecords` | src/orchestrator.rs:534-647 | the loop that takes and handles one record at a time equals taking all whole records and handling them in order; it terminates |
| `Orchestrators.Orchestrator.TakeRecord` | src/orchestrator.rs:546-554 | removes exactly one record from the queue |
| `Orchestrators.Orchestrator.HandleRecord` | src/orchestrator.rs:555-646 | classification, counting and emission of one record |
| `Orchestrators.Orchestrator.ClassifyRecord` | src/orchestrator.rs:563-645 | change-cipher-spec, hellos, missing hello and decryption outcomes |
| `Orchestrators.Orchestrator.CountRecord` | src/orchestrator.rs:555-645 | each kind increments its own counter and the total |
| `Orchestrators.Orchestrator.DissectAndEmit` | src/orchestrator.rs:663-744 | dissects tail plus plaintext, stores the leftover, emits one message |
| `Orchestrators.Orchestrator.SetTailCapped` | src/orchestrator.rs:750-764 | keeps the most recent bytes within the cap and counts the dropped ones |
| `Orchestrators.DrainUnfolds` | src/orchestrator.rs:541-647 | handling record by record equals extracting all and then handling |
| `TableRuns.KeysAreUnorderedPairs` | src/orchestrator.rs:22-30 | two frames share a key exactly when they join the same endpoints, in either direction |
| `TableRuns.InterleavingIndependence` | src/orchestrator.rs:421-529 | a connection's messages, frame by frame, and its entry equal those of the capture of its frames alone |
| `TableRuns.TableHoldsOpenConnections` | src/orchestrator.rs:444-524 | a key is present exactly when its incarnation has seen no RST and not a FIN from each of two distinct endpoints |
| `TableRuns.OpeningsAreConserved` | src/orchestrator.rs:444-524 | incarnations opened equal active entries plus evictions |
| `TableRuns.RecordsAreAccountedFor` | src/orchestrator.rs:555-645 | after every capture each counter is the number of records of its kind |
| `TableRuns.OutcomesSumToRecordsSeen` | src/orchestrator.rs:304-332 | the five outcome counters sum to the records seen |
| `TableRuns.DropsAreCounted` | src/orchestrator.rs:750-764 | after every capture the discard counter is the sum of what its frames dropped |
| `TableRuns.GapsAreCounted` | src/orchestrator.rs:497-511 | after every capture the gap counters are the bytes its frames abandoned and how many did |
| `TableRuns.MessagesNameTheirFrame` | src/orchestrator.rs:686-743 | in every capture each message carries the source, destination and time of the frame that completed it |
| `TableRuns.OneMessagePerApplicationRecord` | src/orchestrator.rs:620-634 | one message per decrypted application record, carrying its plaintext |
| `TableRuns.MessagesAreApplicationRecords` | src/orchestrator.rs:657-662 | over every capture, messages carry in order the plaintexts of the decrypted application records |
| `ConnectionRuns.DirectionsAreIndependent` | src/orchestrator.rs:105-131 | each direction's reassembly and records are those of its own frames alone |
| `ConnectionRuns.DesyncIsPermanent` | src/orchestrator.rs:113-131 | a desynchronised direction holds nothing and yields no record ever after |
| `ConnectionRuns.DesyncSilencesDirection` | src/orchestrator.rs:485-511 | nor any outcome or message, for the rest of the incarnation |
| `ConnectionRuns.FlowIsRun` | src/orchestrator.rs:464-495 | while in sync a direction is a loss-free run of the reassembler that has handed out exactly its records |
| `ConnectionRuns.RecordsAreFramesOfPrefix` | src/orchestrator.rs:541-554 | the records are the frames of the hole-free prefix and less than one record is left |
| `ConnectionRuns.YieldsFirstRecords` | src/orchestrator.rs:484-554 | desynchronised or not, a direction yields only the first records of its stream |
| `ConnectionRuns.AnchorIsBase` | src/orchestrator.rs:464-495 | the stream is anchored by the first SYN or, failing that, the first data |
| `ConnectionRuns.NextIsFirstHole` | src/reassembly.rs:206-224 | the delivered length is the first position no frame carried |
| `ConnectionRuns.SegmentationIsIrrelevant` | src/orchestrator.rs:541-554 | captures covering the same positions yield the same records |
| `ConnectionRuns.ConnectionExtractsStream` | src/orchestrator.rs:484-554 | the same for a direction of a whole connection, whatever the other one does |
| `SyncRuns.GapIsReported` | src/orchestrator.rs:489-511 | a frame's gap is the bytes its segment makes the reassembler of the earlier frames report, while in sync |
| `SyncRuns.DesyncExactlyOnAbandonedGap` | src/orchestrator.rs:489-511 | a direction is desynchronised exactly when one of its segments made that reassembler abandon a gap |
| `SyncRuns.ConnectionDesyncsExactly` | src/orchestrator.rs:105-131 | the same for a direction of a connection, whatever the other one does |
| `SyncRuns.WithinLimitsStaysInSync` | src/reassembly.rs:286-307 | frames within the byte, packet and age limits never desynchronise |
| `SyncRuns.WithinLimitsYieldsEverything` | src/orchestrator.rs:484-554 | honest ones yield every record before the first position none of them carries |
| `DissectionRuns.DissectKeepsWhatFits` | src/orchestrator.rs:698-764 | of what the dissector leaves, as much as the cap allows is kept, no less, and exactly the excess is dropped; nothing for a port without a dissector |
| `DissectionRuns.NothingDroppedExactly` | src/orchestrator.rs:750-764 | nothing is dropped exactly when what the dissector leaves never exceeds the cap, and all of it is then the tail |
| `DissectionRuns.ConnectionDropsExactly` | src/orchestrator.rs:663-764 | the same of each direction of a connection |
| `DissectionRuns.TailsFoldPlaintexts` | src/orchestrator.rs:663-744 | tail, fields and dropped bytes of a direction are the fold of its application plaintexts |
| `DissectionRuns.PlaintextIsConserved` | src/orchestrator.rs:698-764 | consumed, dropped and tail account for every plaintext byte; the tail is the most recent of them and within the cap; with no drop, consumed followed by tail is the plaintext |
| `DissectionRuns.ConnectionConservesPlaintext` | src/orchestrator.rs:663-764 | the same for each direction of a connection: its tail, its drops and what was consumed account for its messages' plaintexts |
| `DissectionRuns.RecordSplitIsInvisible` | src/orchestrator.rs:649-701 | a dissector of self-delimited messages yields those of the undivided plaintext, however it is split, if no incomplete message outgrows the cap |
| `DissectionRuns.ConnectionDissectsStream` | src/orchestrator.rs:649-744 | the same for the messages of a direction of a whole connection |
| `RecordOutcomes.FailureIsExact` | src/connection.rs:264-320 | decryption reports failed authentication exactly for a record below 24 bytes that does not open and has TLS 1.2 secrets |
| `RecordOutcomes.OutcomesAreDue` | src/orchestrator.rs:563-645 | over every sequence of records, each is in the clear, without client hello, short or undecryptable exactly as the hellos shown before it say, and the randoms known are those of the first hellos |
| `RecordOutcomes.FrameOutcomesAreDue` | src/orchestrator.rs:421-645 | the same for every record of every capture |
| `EndToEnd.LifeTells` | src/orchestrator.rs:534-647 | a direction's messages carry the application plaintexts among the records classified in order |
| `EndToEnd.ReadsWhatWasSent` | src/orchestrator.rs:563-645 | under an ideal AEAD, classifying genuine in-order records reads the plaintexts sent |
| `EndToEnd.CaptureRevealsPlaintext` | src/orchestrator.rs:534-647 | for the life of one connection, its messages carry exactly the application plaintexts protected in the records extracted, in order |
| `Incarnations.TableIsLatestIncarnation` | src/orchestrator.rs:421-529 | a key is present exactly while its incarnation is open; its entry, messages and drops are those of a connection fed the incarnation's frames alone |
| `Incarnations.TableConservesPlaintext` | src/orchestrator.rs:663-764 | an entry's tail, the drops and what was consumed account for every plaintext byte its incarnation emitted |
| `Sessions.NextSent` | src/orchestrator.rs:541-554 | each record handled is the next one its endpoint sent |
| `Sessions.SessionIsFollowed` | src/orchestrator.rs:563-645 | handling an honest session's records is a genuine in-order decryption run that learns the server's random from its hello |
| `Sessions.CaptureRevealsSession` | src/orchestrator.rs:421-647 | from the streams sent to the messages of the table run: exactly the application plaintexts protected in the records that end before the first uncaptured byte |
| `SessionExample.FrameRevealsContent` | src/orchestrator.rs:421-647 | a session that meets every assumption, captured in one frame, yields a message of any given content |
| `SessionExample.RunIsGenuine` | src/connection.rs:199-215 | presenting its sealed record is a genuine in-order run |
| `Calendar.YearOfEraExact` | src/ek_output.rs:519-521 | the year-of-era formula finds the year for every century, cycle, year and day |
| `Calendar.CivilIsExact` | src/ek_output.rs:516-527 | every day number yields a valid Gregorian date whose number it is |
| `Calendar.DaysFromCivilIsExact` | src/ek_output.rs:516-527 | every valid date is the date of its number |
| `Calendar.CivilFollowsCalendar` | src/ek_output.rs:516-527 | the date of z+1 is the calendar successor of the date of z |
| `Calendar.EpochIsDayZero` | src/ek_output.rs:514-516 | day zero is 1970-01-01 |
| `Timestamps.TimestampIsExact` | src/pcap_input.rs:308-330 | the result is the exact time rounded down exactly for power-of-two resolutions, decimal ones up to nine, or zero ticks |
| `Timestamps.NoOverflow` | src/pcap_input.rs:308-330 | for 64-bit ticks no intermediate leaves 128 bits and no result its field |
| `Json.WriteString` | src/ek_output.rs:532-547 | the loop appends the quoted, escaped string |
| `Json.UnescapeInverts` | src/ek_output.rs:532-547 | unescaping recovers every string |
| `Json.ParseInverts` | src/ek_output.rs:412-489 | parsing recovers every rendered value and stops right after it |
| `Json.RenderIsOneLine` | src/ek_output.rs:532-547 | rendered text contains no newline |
| `Ndjson.GroupEntries` | src/ek_output.rs:343-357 | groups come in order of first occurrence, each with all its values in order |
| `Ndjson.ValuesInOrder` | src/ek_output.rs:343-357 | a group's values are those of the earlier entries followed by those of the later, one for each entry of the name |
| `Ndjson.GroupsInOrder` | src/ek_output.rs:343-357 | groups come in order of first occurrence: the later entries' new names after all of the earlier ones' |
| `Ndjson.NamesOccur` | src/ek_output.rs:347-352 | a name heads a group exactly when some entry has it, and its group is not empty |
| `Ndjson.NamesAreDistinct` | src/ek_output.rs:348-350 | no name heads two groups |
| `Ndjson.GroupReadsBack` | src/ek_output.rs:359-394 | a rendered group holds every occurrence in order, and is a scalar exactly for a lone leaf |
| `Ndjson.SubtreeReadsBack` | src/ek_output.rs:465-489 | a rendered subtree holds one member per name, in order, under the short name, with all its occurrences or as a map |
| `Ndjson.LeafReadsBack` | src/ek_output.rs:412-426 | a rendered leaf tells its value |
| `Ndjson.ShortNameStrips` | src/ek_output.rs:476-484 | the enclosing name is stripped where it is a dotted prefix, and nothing else |
| `Ndjson.UnderscoredHasNoDots` | src/ek_output.rs:484 | dots become underscores and nothing else changes |
| `Ndjson.LastStringIsLast` | src/ek_output.rs:444-450 | the last string under a short name counts |
| `Ndjson.MapInOrder` | src/ek_output.rs:435-463 | a map has, in order, one member per occurrence with both a name and a value |
| `Ndjson.WriteFieldValue` | src/ek_output.rs:412-426 | appends the JSON text of a value of any nesting |
| `Ndjson.WriteFieldsObject` | src/ek_output.rs:469-489 | appends one member per group, prefix stripped and dots replaced |
| `Ndjson.WriteNamedValue` | src/ek_output.rs:398-410 | map or scalar-or-array rendering by name |
| `Ndjson.WriteValueOrArray` | src/ek_output.rs:375-394 | a lone leaf is a scalar, anything else an array |
| `Ndjson.WriteMap` | src/ek_output.rs:435-463 | one member per occurrence with a name and a value |
| `NdjsonLines.WriteOne` | src/ek_output.rs:262-305 | one JSON object and one newline: envelope, then selected groups in order, the exploded one singular |
| `NdjsonLines.WriteTlsRecord` | src/ek_output.rs:242-257 | one line per object of the record |
| `NdjsonLines.LineTellsMessage` | src/ek_output.rs:262-283 | every line tells kind, time, addresses, ports and data under their names |
| `NdjsonLines.GroupsAsSelected` | src/ek_output.rs:284-301 | then the selected groups that occur, in the order selected, the exploded one with a single occurrence |
| `NdjsonLines.ExplodedLinesInOrder` | src/ek_output.rs:242-257 | with a selected group exploded, the i-th line holds its i-th occurrence |
| `NdjsonLines.OutputReadsBack` | src/ek_output.rs:238-305 | the output for any list of messages reads back, line by line, as their objects in order |
| `NdjsonLines.LineDiscipline` | src/ek_output.rs:238-305 | exactly max(1, n) newlines, each ending one line that parses back to its object |

## Left out

- Reassembler and TLS state inside the orchestrator are held as values in the connection table, not as separate heap objects: the program owns them by value there, and the classes `StreamReassembler` and `ConnectionState` are proved equal to the same functions.
- The pseudo-random and AEAD primitives (HKDF, HMAC, AES-GCM, ChaCha20-Poly1305): parameters.
- Tokenising and hex-decoding of key log lines, and the `stat`-based reload: a log is a list of parsed lines, and any log may be in force for any record.
- The idle-timeout sweep (off by default), Lua garbage collection, statistics and warnings: no effect on what is proved.
- Link, IP and TCP header parsing and block reading: frames are inputs; IP addresses are positions in their order, and their text is an input of the writer.
- The Lua bridge: a dissector is any function of port and buffer; only the clamp of its consumed count is kept.
- The `-T ek` writer, packet events, field selection, output rotation: easy members.
- UTF-8 encoding of the output: text is a sequence of characters. Surrogate escapes, which the writer never produces, are refused by the parser.
- Counters and lengths are unbounded; where a width matters (sequence numbers, 64-bit record counters, 128-bit ticks) it is stated in the theorem.
