# mini-tor, modelled and proved

A Dafny model of the parts of mini-tor whose correctness is decided by its own code: the onion
circuit protocol from the first CREATE cell to the last byte of a stream, the directory's path
selection, the client's pool of circuits, and the lock order of a relay.

`dafny verify dfyconfig.toml` checks everything. Lemmas carry `{:induction false}`: every inductive
proof is written out.

## How the model is laid out

- `Bytes`, `Sequences`, `Wrappers`: exclusive or on bytes, big-endian integers, small helpers.
- `Cell`: the 514-byte cell, its codec on an array, and cells on a byte stream.
- `Keystream`, `Crypto`: a cipher is a fixed keystream and a position (counter mode, section 6.5 of
  NIST SP 800-38A); a digest is the bytes it has absorbed and a tag function. `CipherPair`,
  `RunningDigest` and the N-layer loops are imperative and are proved equal to the algebra.
- `Ntor`, `ExtendPayload`, `Telescope`: the handshake (X25519 and HMAC are parameters), the EXTEND
  payload, and the hop-by-hop build over any number of relays.
- `Transcript`: what it means that one end seals cells in one order and the other end opens them in
  the order they arrive, when nothing in a cell says where it belongs.
- `Forward`, `ForwardDelivery`, `Backward`, `BackwardDelivery`: both directions of a circuit of N
  hops as step systems with a FIFO queue between neighbours; an inductive invariant, and what it
  means for whole runs. `ReadyCircuit` shows that a finished build is a start state of both.
- `ClientCircuit`, `RelayHandlers`, `StreamLoops`: the classes and loops of the client and the
  relays, each method proved against the step functions above.
- `Chunking`, `ExitStreams`, `StreamMux`, `StreamReturn`: many streams on one circuit.
- `Directory`, `WeightedSampling`, `PathSelection`, `PathCompleteness`, `Clock`, `Registry`: the
  directory.
- `EndToEnd`: the paths the directory selects are paths the client can build, and what is sent on
  them arrives.
- `CircuitPool`: the pool; `LockOrder`: the relay's locks.

## What the proofs found

- `send_message` moves digest and ciphers on before the cell writer refuses a payload above 497
  bytes, so one such call makes the exit reject the next cell. The exit also stops at a BEGIN whose
  destination is not text. It reads on exactly as long as the cells sent ahead fit and their
  destinations are text (`ExitStopsExactlyAtBadCell`, `OversizeDesynchronises`,
  `NonTextBeginStops`).
- An END reply of the exit is sealed under the crypto lock but written after the lock is released.
  If a stream seals and writes a cell in between, the client tears the circuit down on that cell.
  Order is lost exactly then (`OrderLostExactlyByOvertaking`, `OvertakenReplyKillsCircuit`).
- `replace_circuit` removes the failed id before it rebuilds, so a second failure is counted only
  when somebody replaces an id that is no longer in the pool (`RetriedExactlyWhenGone`). The monitor
  alone never does (`MonitorAloneNeverRetries`), although its messages and backoff speak of repeated
  attempts. Every SOCKS connection whose stream fails on a closed circuit also replaces it, without
  looking whether it is still there (services/tor-client/src/client/socks_proxy.rs:144-163): two
  connections on one circuit can spend a budget of two (`TwoConnectionsSpendABudget`), and a second
  successful replacement of one circuit makes the pool one larger (`ReplacementSize`).
- Path selection is greedy: it may give up although a valid path exists (`GreedyMayMissAPath`). It
  never fails exactly when every entry, exit and list of middles the sampler can pick leaves enough
  candidates (`NeverFailsExactly`; for three hops `ThreeHopsNeverFailExactly`), and when it gives up
  no valid path extends the draws it made (`FailureIsFinal`).
- The EXTEND payload round-trips for every key, zero bytes included, exactly when the address holds
  no zero byte (`ParseAfterBuild`).
- `expand_key_seed` is one HMAC, not the expansion of section 5.1.4 of tor-spec; agreement of the
  two ends is proved, conformance is not claimed.

## Model

| member | source | states |
|---|---|---|
| Cell.CommandOf | services/common/src/protocol.rs:45-63 | the ten command codes are the only bytes accepted, and each names its own command |
| Cell.ToBytes | services/common/src/protocol.rs:171-219 | filling the buffer field by field gives the 514-byte layout, for any padding |
| Cell.DecodeAfterEncode | services/common/src/protocol.rs:171-295 | decoding inverts encoding, with the payload cut to 497 bytes; nothing is cut when it fits |
| Cell.EncodeAfterDecode | services/common/src/protocol.rs:225-295 | every accepted cell is the encoding of its decoding, its own tail being the padding |
| Cell.AcceptedExactlyEncodings | services/common/src/protocol.rs:225-295 | the accepted byte strings are exactly those that start with an encoding |
| Cell.CellStream.Write | services/common/src/protocol.rs:336-350 | one cell is appended, or nothing when the payload is above 497 bytes |
| Cell.CellStream.Read | services/common/src/protocol.rs:312-334 | one read takes one cell, and a short last read is a close |
| Cell.WrittenCellsReadBack | services/common/src/protocol.rs:312-350 | whatever list of cells was written, followed by fewer than 514 stray bytes, reads back as that list and then a close |
| Keystream.ApplyEachIsMask | services/tor-client/src/core/crypto_engine.rs:26-38 | N ciphers one after the other are one exclusive or with their combined keystream |
| Keystream.PadAnyOrder | services/tor-client/src/core/crypto_engine.rs:26-38 | the combined keystream does not depend on the order of the ciphers |
| Keystream.PeelInAnyOrder | services/tor-client/src/core/crypto_engine.rs:26-38 | peeling by the same N layers in any order restores the plaintext |
| Keystream.MaskInPieces | services/common/src/crypto.rs:38-57 | processing a and then b equals processing a followed by b |
| Crypto.ApplyKeystream | services/common/src/crypto.rs:49-57 | the in-place loop is the exclusive or with the keystream from the current position |
| Crypto.CipherPair.ApplyForward | services/common/src/crypto.rs:49-51 | the buffer is masked and only the forward position moves, by its length |
| Crypto.RunningDigest.Update | services/common/src/crypto.rs:82-92 | the digest absorbs stream id, command and payload, and the tag is of all it has absorbed |
| Crypto.RunningDigest.Verify | services/common/src/crypto.rs:94-98 | verification absorbs the same bytes whether or not the tag matches |
| Crypto.WrapForward | services/tor-client/src/core/crypto_engine.rs:26-30 | the exit-first loop masks the buffer with all forward layers and moves every one of them by its length |
| Crypto.UnwrapBackward | services/tor-client/src/core/crypto_engine.rs:34-38 | the same for the entry-first loop and the backward layers |
| Ntor.HonestHandshakeAgrees | services/common/src/crypto.rs:388-466 | with matching key pairs and commuting Diffie-Hellman the client accepts and holds the relay's session key |
| Ntor.SecretInputInjective | services/common/src/crypto.rs:310-326 | the secret input determines its five 32-byte fields |
| Ntor.AuthInputInjective | services/common/src/crypto.rs:412-418 | the AUTH input determines its four fields |
| Ntor.AcceptanceMeansAgreement | services/common/src/crypto.rs:388-466 | unless HMAC collides, a relay's AUTH is accepted exactly when both ends agree on B, X, Y and both shared secrets, and then they share the key |
| ExtendPayload.ParseAfterBuild | services/tor-client/src/core/circuit.rs:279-285 | parsing undoes building for every key exactly when the address is free of zero bytes |
| ExtendPayload.BuildAfterParse | services/relay-node/src/circuit/entry.rs:93-132 | every accepted payload rebuilds to itself |
| ExtendPayload.AcceptedExactlyBuilt | services/relay-node/src/circuit/middle.rs:85-125 | the accepted payloads are exactly the built ones with text fields and a zero-free address |
| Telescope.TravelExact | services/relay-node/src/circuit/entry.rs:257-266 | an EXTEND sent under all layers is acted on in clear by the last relay only, its answer returns under all backward layers, and all ciphers move alike |
| Telescope.ExtendInClear | services/relay-node/src/circuit/middle.rs:70-193 | what a relay does with the payload the client built: connect, CREATE with the client's key, return the answer |
| Telescope.FinishExact | services/tor-client/src/core/circuit.rs:328-353 | the client takes the answer exactly when both ends agree, and derives the relay's key |
| Telescope.CreateEntryExact | services/tor-client/src/core/circuit.rs:200-264 | CREATE succeeds exactly when the entry listens and agrees |
| Telescope.ExtendByExact | services/tor-client/src/core/circuit.rs:266-353 | one EXTEND, with the client's error in every other case: payload too large, handshake refused, and a relay's failure seen as a close or, from behind the entry, as a DESTROY |
| Telescope.BuildExact | services/tor-client/src/core/circuit.rs:150-174 | n hops are built exactly when each of them works, and the resulting state is given in closed form |
| Telescope.ReadyExactly | services/tor-client/src/core/circuit.rs:117-198 | Ready exactly for three or more working hops; then both sides hold equal layers, forward position of hop i = EXTEND payloads of later hops, backward = 64 for each, and the EXTEND for hop i + 1 was in clear at relay i |
| Telescope.HonestPathWorks | services/tor-client/src/core/circuit.rs:113-198 | honest relays that match their descriptors, with payloads that fit and an exit only at the end, always give a Ready circuit |
| Transcript.InOrderOpens | services/common/src/crypto.rs:69-98 | cells opened in sealing order open to what was sealed, and every digest verifies |
| Transcript.FirstGapFails | services/common/src/crypto.rs:69-98 | the first cell out of order is rejected unless the digest collides |
| Transcript.VerifiesIffInOrder | services/common/src/crypto.rs:69-98 | all arrivals verify exactly when they arrive in sealing order |
| Forward.SendKeepsInv | services/tor-client/src/core/circuit.rs:68-94 | sending keeps the forward invariant, oversize payloads included |
| Forward.RelayMovesOn | services/relay-node/src/circuit/entry.rs:200-231 | a relay's step keeps it |
| Forward.ExitKeepsInv | services/relay-node/src/circuit/exit.rs:380-397 | the exit's step keeps it |
| Forward.StepKeepsInv | services/relay-node/src/circuit/middle.rs:229-258 | every step of every party keeps it |
| Forward.RunKeepsInv | services/tor-client/src/core/circuit.rs:67-94 | it holds in every run for any N of three or more |
| ForwardDelivery.ForwardDelivery | services/relay-node/src/circuit/exit.rs:116-137 | in every run with payloads of at most 497 bytes and destinations in text the exit rejects nothing and has decrypted a prefix of what the client sent |
| ForwardDelivery.ExitStopsExactlyAtBadCell | services/relay-node/src/circuit/exit.rs:116-137 | for any cells: what is delivered is a prefix, and the exit still reads exactly when the sends up to the last cell it took all fit a cell and name their destinations in text |
| ForwardDelivery.NonTextBeginStops | services/relay-node/src/circuit/exit.rs:135-137 | a run in which a BEGIN that is not text stops the exit |
| ForwardDelivery.InOrderIffFirstFit | services/common/src/protocol.rs:340-345 | cells reach the wire in sealing order exactly while payloads fit |
| ForwardDelivery.PositionsLagByQueuedBytes | services/tor-client/src/core/crypto_engine.rs:26-30 | the client's position for hop i is relay i's position plus the payload bytes queued upstream of it |
| ForwardDelivery.QuietMeansAllDelivered | services/relay-node/src/circuit/exit.rs:368-460 | with nothing in flight everything sent has been delivered |
| ForwardDelivery.OversizeDesynchronises | services/tor-client/src/core/circuit.rs:74-87 | a run in which one oversize payload makes the exit reject the next cell |
| Backward.ExitStepKeepsInv | services/relay-node/src/circuit/exit.rs:149-171 | sealing and writing, in one step or in two, keeps the backward invariant |
| Backward.SendUpKeepsInv | services/relay-node/src/circuit/entry.rs:324-396 | a relay's reader keeps it, DESTROY included |
| Backward.ClientTakeKeepsInv | services/tor-client/src/core/circuit.rs:688-747 | the client's reader keeps it, cells of unregistered streams included |
| Backward.RunKeepsInv | services/relay-node/src/circuit/middle.rs:326-415 | it holds in every run for any N of three or more |
| BackwardDelivery.BackwardDelivery | services/tor-client/src/core/circuit.rs:697-746 | unless a pending reply is overtaken, the reader rejects nothing and has decrypted a prefix of what the exit sealed |
| BackwardDelivery.ReaderRejectsExactlyOutOfOrder | services/tor-client/src/core/circuit.rs:702-715 | for every run: what is accepted is a prefix, and the circuit dies of a bad digest exactly when a cell written out of sealing order has reached the reader |
| BackwardDelivery.OrderLostExactlyByOvertaking | services/relay-node/src/circuit/exit.rs:511-524 | wire order equals sealing order exactly while nothing is sealed and written during a pending reply |
| BackwardDelivery.InboxIsOwnStream | services/tor-client/src/core/circuit.rs:731-746 | a registered stream has been given exactly its own accepted cells, in order |
| BackwardDelivery.OvertakenReplyKillsCircuit | services/relay-node/src/circuit/exit.rs:446-458 | a run in which an overtaken reply makes the client drop the circuit |
| BackwardDelivery.DestroyOvertakesNothing | services/relay-node/src/circuit/entry.rs:334-396 | in every run the entry stops exactly with a DESTROY that comes last, so a client that closes on it has taken every cell the entry passed on |
| ReadyCircuit.ReadyIsForwardStart | services/tor-client/src/core/circuit.rs:176-197 | the parties of a Ready circuit are a start state of the forward direction |
| ReadyCircuit.ReadyIsBackwardStart | services/relay-node/src/circuit/exit.rs:77-86 | and of the backward direction |
| ReadyCircuit.BuiltCircuitDelivers | services/tor-client/src/core/circuit.rs:117-198 | every circuit that comes up delivers in both directions, in every interleaving |
| ClientCircuit.StreamIdsRepeatOnlyAfterFullCycle | services/tor-client/src/core/circuit.rs:50-57 | two allocations give one id exactly when they are a multiple of 65535 apart |
| ClientCircuit.Circuit.AllocateStreamId | services/tor-client/src/core/circuit.rs:50-57 | the k-th id, k from 0, is k mod 65535 plus 1, so never 0 |
| ClientCircuit.Circuit.SendMessage | services/tor-client/src/core/circuit.rs:68-94 | the cell of the forward step goes out; an oversize payload is refused with digest and ciphers already moved |
| ClientCircuit.Circuit.ReceiveCell | services/tor-client/src/core/circuit.rs:688-753 | one turn of the reader is the reader's step: layers, digest, channels, and closing on DESTROY or a bad digest |
| ClientCircuit.HandshakeExtend | services/tor-client/src/core/circuit.rs:269-353 | the imperative handshake computes the telescope's step on the cipher objects |
| ClientCircuit.BuildCircuit | services/tor-client/src/core/circuit.rs:117-198 | the loop over hops returns the telescope's error or a circuit holding exactly its layers |
| RelayHandlers.RelayHandler.HandleCreate | services/relay-node/src/circuit/entry.rs:42-76 | CREATE answers with the handshake and starts the ciphers at position 0 |
| RelayHandlers.RelayHandler.HandleExtend | services/relay-node/src/circuit/entry.rs:78-198 | EXTEND at the last relay is the telescope's step, with its errors; the forward cipher has moved either way |
| RelayHandlers.RelayHandler.HandleRelay | services/relay-node/src/circuit/entry.rs:200-231 | one layer off, the cell of the forward step on the wire; without a next hop the cell is dropped but the cipher has moved |
| RelayHandlers.RelayHandler.HandleBackwardRelay | services/relay-node/src/circuit/middle.rs:261-279 | one layer on, as in the backward step |
| RelayHandlers.RelayHandler.HandleMessage | services/relay-node/src/circuit/middle.rs:281-314 | dispatch: padding, CREATED and cells before CREATE change nothing, DESTROY forgets cipher and next hop, EXTEND is relayed once there is a next hop, CREATE makes new ciphers and leaves the next hop |
| RelayHandlers.ExitCrypto.Open | services/relay-node/src/circuit/exit.rs:380-397 | decrypting and verifying is the exit's step |
| RelayHandlers.ExitCrypto.Seal | services/relay-node/src/circuit/exit.rs:449-455 | sealing is the exit's backward step |
| RelayHandlers.ExitHandler.HandleStreamCell | services/relay-node/src/circuit/exit.rs:100-224 | BEGIN, DATA and END together: digest first, then the stream table, CONNECTED written at once, END replies left to the caller |
| RelayHandlers.ExitHandler.HandleData | services/relay-node/src/circuit/exit.rs:399-459 | data is queued for an open stream, otherwise the right END is sealed |
| RelayHandlers.ExitHandler.HandleMessage | services/relay-node/src/circuit/exit.rs:527-555 | dispatch at the exit: stream cells as above with the CONNECTED written, padding and unexpected commands change nothing, DESTROY forgets keys and streams |
| RelayHandlers.ExitHandler.HandleCreate | services/relay-node/src/circuit/exit.rs:56-98 | as at every relay, with two empty digests |
| Chunking.Chunks | services/tor-client/src/core/stream.rs:128-135 | the chunks of a read are non-empty, at most 497 bytes, all but the last full, and concatenate to the read |
| StreamLoops.SendRead | services/tor-client/src/core/stream.rs:124-138 | undisturbed, the loop puts the sealed chunks of the read on the wire, in order, and leaves ciphers and digest moved by exactly them |
| StreamLoops.SendBack | services/relay-node/src/circuit/exit.rs:281-306 | the same for the exit's loop |
| ExitStreams.QueueIsStreamData | services/relay-node/src/circuit/exit.rs:399-400 | a stream's queue is a prefix of the data sent for it, and all of it while its worker runs |
| StreamMux.RunsBelow | services/tor-client/src/core/stream.rs:44-50 | every run of the streams is a run of the circuit underneath |
| StreamMux.NextIdIsNew | services/tor-client/src/core/circuit.rs:50-57 | until ids wrap around a new stream has an id no stream had |
| StreamMux.StepKeepsInv | services/tor-client/src/core/stream.rs:24-221 | per stream, bytes read = bytes sent plus bytes still to send, and BEGIN comes first and once |
| StreamMux.QueueIsPrefixOfRead | services/relay-node/src/circuit/exit.rs:399-420 | for any interleaving of streams, the bytes queued for a stream's destination are a prefix of those read from its SOCKS client |
| StreamMux.QuietQueueIsAllOfRead | services/relay-node/src/circuit/exit.rs:399-420 | and all of them once nothing is in flight |
| StreamReturn.ChunksCarryTheRead | services/relay-node/src/circuit/exit.rs:282-303 | the cells of one read carry exactly the read, and nothing for other streams |
| StreamReturn.RunsBelow | services/relay-node/src/circuit/exit.rs:239-305 | every run of the stream tasks is a run of the circuit underneath |
| StreamReturn.StepKeepsInv | services/relay-node/src/circuit/exit.rs:242-303 | per task, bytes read = bytes sealed plus bytes still to seal, and no data is sealed before the client registered the stream |
| StreamReturn.WrittenIsPrefixOfRead | services/tor-client/src/core/stream.rs:162-169 | for any interleaving of stream tasks without an overtaken reply, the bytes handed to a SOCKS client are a prefix of those read from its destination |
| StreamReturn.WrittenIsPrefixOfSealed | services/tor-client/src/core/stream.rs:162-169 | the bytes handed to a SOCKS client are a prefix of those the exit sealed for its stream |
| WeightedSampling.SelectWeightedIndex | services/discovery/src/core/registry.rs:260-286 | the walk finds the candidate whose stretch holds the draw; no subtraction underflows and the fallback is unreachable |
| WeightedSampling.ExactlyProportional | services/discovery/src/core/registry.rs:270-283 | exactly as many draws select a candidate as its bandwidth, so none selects one of bandwidth zero |
| PathSelection.GetRandomPath | services/discovery/src/core/registry.rs:134-246 | the program with its growing exclusion sets computes the greedy selection |
| PathSelection.FitsBySets | services/discovery/src/core/registry.rs:216-225 | passing the two exclusion sets is clashing with no chosen node |
| PathSelection.ReturnedPathIsValid | services/discovery/src/core/registry.rs:175-245 | for all draws: length, shape, distinct nodes, distinct operators, and distinct non-loopback IPs unless allowed |
| PathSelection.MiddleFailureIsFinal | services/discovery/src/core/registry.rs:214-242 | when a middle slot fails, no completion of the chosen nodes exists |
| PathSelection.FailureIsFinal | services/discovery/src/core/registry.rs:135-242 | whenever selection fails, no valid path extends the draws made |
| PathSelection.SucceedsExactlyWhenEnough | services/discovery/src/core/registry.rs:135-168 | when nothing can clash, success for every draw is exactly having enough nodes of each kind |
| PathSelection.UntaggedNeverClash | services/discovery/src/core/registry.rs:216-225 | allowing same IPs without operator tags is such a case |
| PathCompleteness.PicksOnlyDrawable | services/discovery/src/core/registry.rs:270-283 | a draw picks a node of positive bandwidth, or any node when none has bandwidth |
| PathCompleteness.DrawForPicks | services/discovery/src/core/registry.rs:270-283 | and each of these is picked by some draw |
| PathCompleteness.NextCandidates | services/discovery/src/core/registry.rs:215-234 | filtering what a pick leaves gives exactly the middles that are not chosen and clash with nothing chosen |
| PathCompleteness.NeverFailsExactly | services/discovery/src/core/registry.rs:134-246 | selection succeeds for all draws if and only if there are enough nodes of each kind, no pickable entry and exit clash, and every pickable list of middles leaves a candidate per open slot |
| PathCompleteness.ThreeHopsNeverFailExactly | services/discovery/src/core/registry.rs:134-246 | for three hops: every pickable pair is free of clashes and has a middle that fits both |
| PathSelection.GreedyMayMissAPath | services/discovery/src/core/registry.rs:187-204 | four relays and a draw for which it fails although a valid path exists |
| Registry.RunIsConsistent | services/discovery/src/core/registry.rs:89-111 | in every run keys are node ids and no two entries share an address |
| Registry.RegisterKeepsTheRest | services/discovery/src/core/registry.rs:94-110 | registering again keeps registered_at and metrics; exactly the other holders of the address go |
| Registry.EntryTellsItsHistory | services/discovery/src/core/registry.rs:94-110 | in every run registered_at is the time of the first registration since the node was last absent, and the descriptor that of its latest |
| Registry.TimesInOrder | services/discovery/src/core/registry.rs:324-341 | in every run registration is not after the last heartbeat, and nothing stale survives a cleanup |
| Registry.NodeRegistry.RegisterNode | services/discovery/src/core/registry.rs:89-111 | the method keeps the table consistent and is that registration |
| Registry.NodeRegistry.CleanupStaleNodes | services/discovery/src/core/registry.rs:324-341 | exactly the non-stale entries stay and the number removed is returned |
| Registry.NodeRegistry.GetNodesByType | services/discovery/src/core/registry.rs:124-130 | every node of the type once, in any order |
| Registry.NodeRegistry.IsReady | services/discovery/src/core/registry.rs:343-347 | ready exactly when there is a node of each type |
| Registry.NodeRegistry.GetStats | services/discovery/src/core/registry.rs:349-392 | the counts are per type and add up to the total, and the two ages are the largest and the smallest of the entries' |
| Registry.NodeRegistry.GetRandomPath | services/discovery/src/core/registry.rs:134-246 | for every order of the map the path is a valid selection from the table, with the exact success condition when nothing clashes |
| EndToEnd.PathAddressesDiffer | services/discovery/src/core/registry.rs:94-95 | no selected path holds one address twice, because the table holds it once |
| EndToEnd.SelectedPathBuilds | services/tor-client/src/core/circuit.rs:578-599 | with honest relays every path the directory selects builds, for all random numbers |
| EndToEnd.SelectedPathDelivers | services/tor-client/src/core/circuit.rs:578-617 | and the circuit delivers in both directions, in every interleaving |
| CircuitPool.RunKeepsInv | services/tor-client/src/core/circuit.rs:578-624 | in every run before ids wrap: ids below the next one, ready has an age and dirty none, pool and failure ids disjoint, spent budget implies abandoned |
| CircuitPool.StagesOnlyGrow | services/tor-client/src/core/circuit.rs:749-753 | circuits only move from ready to dirty to closed to gone, and an id never returns |
| CircuitPool.ExpiryIsExact | services/tor-client/src/core/circuit.rs:414-439 | exactly the ready circuits of full age turn dirty; streams and all other circuits stay |
| CircuitPool.ExpiresAtMostOnce | services/tor-client/src/core/circuit.rs:427-438 | no id is returned by two expiries |
| CircuitPool.DirtyExactlyWhenExpired | services/tor-client/src/core/circuit.rs:427-438 | in every run a circuit is dirty exactly when an expiry returned it and it has not closed since |
| CircuitPool.FailuresAddUp | services/tor-client/src/core/circuit.rs:534-557 | n failed replacements count n and abandon the slot at the budget, not before |
| CircuitPool.FailuresAreStreaks | services/tor-client/src/core/circuit.rs:520-557 | in every run the count of an id is its failed replacements since the last successful one, and it is abandoned exactly when that number once used up the budget |
| CircuitPool.RetriedExactlyWhenGone | services/tor-client/src/core/circuit.rs:525-538 | a count ever exceeds one exactly when a replacement fails for an id with a failure on record, which is then no longer in the pool |
| CircuitPool.TwoConnectionsSpendABudget | services/tor-client/src/client/socks_proxy.rs:138-167 | a run in which two connections replace one closed circuit and spend a budget of two |
| CircuitPool.ReplacementSize | services/tor-client/src/core/circuit.rs:520-576 | a successful replacement enlarges the pool exactly when the circuit was already gone |
| CircuitPool.MonitorAloneNeverRetries | services/tor-client/src/core/circuit.rs:828-881 | when nobody else takes circuits out between the monitor's look and its replacement, every count stays at one and a budget above one is never spent |
| CircuitPool.CircuitPool.ExpireAgedCircuits | services/tor-client/src/core/circuit.rs:414-439 | for every map order the method is that expiry and returns its ids once each |
| CircuitPool.CircuitPool.SelectCircuit | services/tor-client/src/core/circuit.rs:478-512 | for every map order a ready circuit with the fewest streams, unchanged pool; a build when none is ready |
| CircuitPool.CircuitPool.ReplaceCircuit | services/tor-client/src/core/circuit.rs:520-576 | removal, build, and the accounting of failures |
| CircuitPool.CircuitPool.BuildCircuit | services/tor-client/src/core/circuit.rs:578-618 | an id is used up whether or not the build succeeds |
| LockOrder.AllWorkIsDisciplined | services/relay-node/src/circuit/exit.rs:149-171 | every piece of work takes registry, crypto and writer locks in that order and gives all back |
| LockOrder.StepKeepsInv | services/relay-node/src/main.rs:400-418 | each step keeps the order and one holder per lock |
| LockOrder.NoDeadlock | services/relay-node/src/circuit/entry.rs:348-361 | for any number of tasks, no reachable configuration holds a deadlock |
| LockOrder.SomeTaskCanAct | services/relay-node/src/circuit/middle.rs:364-377 | as long as work is unfinished some task can go on |

## Left out

- AES, SHA-256, HMAC and X25519 themselves: a keystream, a tag function, and hypotheses on HMAC and
  Diffie-Hellman stated where they are used.
- Collision resistance: rejection of a misplaced or damaged cell is proved for runs in which the
  digest inputs compared do not collide.
- TLS, TCP, timeouts: links are FIFO queues, `Connect` finds who listens with the pinned certificate,
  and a lost link is the step HangUp or a read that ends.
- UTF-8 and socket-address parsing are parameters; that a descriptor's printed address is text, free
  of zero bytes and parses back is assumed of `SocketAddr`.
- Random numbers are arguments: cell padding, ephemeral secrets, draws of the path selection.
- A path with the same relay twice: relays know circuits only by the id the client chose, so the
  second CREATE would replace the first. The build theorems assume distinct addresses, which the
  directory provides (`EndToEnd.PathAddressesDiffer`); likewise two
  clients that use one circuit id at one relay are outside the model.
- ClientCircuit.BuildCircuit: the relays between client and last hop are values that the handshake
  hands on, not objects; the relay classes are proved against the same functions.
- StreamLoops.SendRead: describes one read while no other stream sends; interleaving between chunks is
  the subject of StreamMux.
- StreamLoops.SendBack: likewise, interleaving is the subject of Backward.
- CircuitPool.RunKeepsInv: stops short of the wrap-around of the 32-bit circuit id, after which ids
  would be reused.
- StreamMux.QueueIsPrefixOfRead: for circuits that open at most 65535 streams; after that ids repeat
  and the exit would replace a stream of the same id.
- StreamReturn.WrittenIsPrefixOfSealed: counts from the registration of the stream on.
- StreamReturn.WrittenIsPrefixOfRead: for circuits whose stream ids have not repeated.
- CircuitPool keeps circuits as values: that pool, reader and streams share one locked object is
  modelled as steps on the pool.
- No claim that the pool stays within its size: dirty circuits live beside their replacements and may
  be replaced again when they close.
- Entries of `circuit_ages` for circuits that closed before they aged stay behind; no bound is claimed.
- The relay's circuit table, gRPC and REST, the SOCKS5 proxy, user interfaces, metrics and the exit
  policy: thin wrappers or presentation.
