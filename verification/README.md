# Verification of the Rmtunnel engine

Rmtunnel joins two boxes: users connect to the server, the server hands each of them a carrier out
of a pool of authenticated connections, and the client at the other end of the carrier dials the
real backend. This project models that engine in Dafny and proves what it keeps: over whole runs,
over every interleaving of its goroutines at a stated grain, and for all inputs. Where a promise of
the code or its comments does not hold, the project proves exactly when it does and gives the run or
the input on which it fails.

`dafny verify dfyconfig.toml` checks everything.

## What is modelled, file by file

- **Generations** (`Generation`, `GenerationPool`, `GenerationSafety`, `GenerationTeardown`,
  `GenerationStaleness`, `GenerationHandout`): the control slot,
  the epoch, the pool queue and the session list of the listening server, the dialing server and the
  listening client of direction "direct", as one transition system. A step is one critical section,
  one channel operation or one network check. `Generation.Server` is the object with the source's
  fields; the steps are the functions its methods are proved to compute.
- **Byte layers** (`Bytes`, `NoiseRecords`, `Transport`, `Framing`, `DatagramRelay`, `Handshake`,
  `CarrierRoundTrip`): the Noise record layer, the WebSocket adapter and a raw connection that
  delivers in arbitrary pieces are each proved to be a byte stream; frames, the handshake and the UDP
  relay are methods over any of the three, and compose into the round trip of one carrier from the
  first byte of its handshake to its last datagram.
- **Waiting, picking and counting** (`Wakeup`, `SessionPool`, `StreamSlots`): the notifier and the
  wait loop, the in-place compaction that picks a session, and the stream-slot accounting.
- **Keeping the tunnel up** (`Maintainer`, `Failover`, `Degradation`): pool growth and drain, profile
  choice with cooldown, address rotation and backoff, and the round-trip-time detector.
- **Mode "udp"** (`UdpCarrier`, `UdpRuns`, `UdpService`): the demultiplexer, and over every
  interleaving its reader, the ports' readers, the reapers and the sessions.
- **The rest** (`BackendPool`, `PortSpec` over `Text`, `Pipe`): health-checked round robin, the port
  notation and its printer, and the goroutines that join two connections. `Counting` and `Options`
  hold what several modules share.

Two grains are used. The fine one is a step per critical section, channel operation or atomic
operation; a socket read or write that a goroutine makes on its own next to such an operation, and
that touches nothing shared, belongs to the same step (`UdpRuns`). Everything is proved at that grain,
with two exceptions. In `Wakeup` a look that succeeds takes its slot at once, while the code counts it
in a later step (`StreamSlots` has both). In `GenerationSafety`, for its results about listed carriers
and queued flows, and in `GenerationTeardown` the epoch check and the admission of a pool connection or
flow are one step, and so are the release of the slot and the teardown. Those coarse steps are defined
as sequences of the fine ones, so all speak of the same machine; `GenerationStaleness` has the
fine-grain counterparts.

## What the proofs found

- **The strong form of generation safety.** "Every carrier a user can be handed presented the
  published epoch" fails even at the coarse grain, because the test for a free slot (server.go:154)
  and the publication (server.go:193-198) are separate critical sections
  (`GenerationSafety.OverlapBreaksMatching`). It holds throughout a run if and only if no publication
  happened over a non-empty pool (`PublishedEpochSafety`), and always on a box that runs its control
  connections one after the other, as the dialing server does (`SequentialSafety`). The weaker form,
  that no listed carrier belongs to a generation that has ended, always holds at that grain.
- **Mode udp hands out flows of dead generations.** The teardown leaves the queue of authenticated
  flows alone, so a flow can be claimed after its generation ended. All queued flows stay live
  throughout a run if and only if every generation ends with none of its flows queued
  (`GenerationSafety.QueuedFlowsExactly`, `DeadFlowCanBeClaimed`).
- **Stale carriers at the fine grain.** A pool handshake that passed the epoch check can be admitted
  after the teardown. With at most K such handshakes in flight never more than K stale carriers exist,
  and K is reached. A run lists none behind a teardown if and only if it has no such late admission
  (`GenerationStaleness.NoStaleExactly`), and the next teardown to complete removes those that are there.
- **teardownEpoch.** Its comment says it closes what presented the given epoch; the code ignores the
  argument and closes everything that is listed. So a superseded control loop that ends closes the pool
  of its live successor (`GenerationTeardown.SupersededTeardownEmptiesSuccessor`). With every listed
  carrier on the published epoch, a teardown spares other generations exactly when the ending loop
  still owns the slot or nothing is listed; publishing only into a free slot, or one control connection
  after the other, always ensures it.
- **requestMore** can send on a closed channel: exactly when the generation that was published as it
  read the channel ended, still owning the slot, before the send.
- **shrinkOne in tcpmux mode** leaves the chosen session listed, so a batch that runs before the
  workers react closes one channel twice exactly when it makes a second call while some session is
  idle, or meets a session stopped earlier.
- **UDP sessions are released twice** when the idle reaper ends them, although obtainCarrier's comment
  asks for exactly one release; each such session leaves the stream counter one too small, so that
  for each of them one more carrier than the cap allows can be open (`StreamSlots.SlotBoundAttained`).
- **obtainSession can miss a broadcast**, because it asks for the channel only after its failing look;
  its 300 millisecond timer bounds the delay.
- **Loss in mode udp** is not limited to full channels and failed writes. The flow reaper takes the
  entry of a flow away whose session is being served, since only datagrams from the peer keep a flow
  fresh while the session lives on user traffic as well; from then on everything the peer sends is
  dropped (`UdpRuns.ReapCutsOffLiveSession`). `UdpRuns.DeliveredExactly` gives the exact condition.
- **The end of a udp-mode session** deletes its peer's entry from the flow map even when the entry
  belongs to a newer flow by then, and so cuts that one off.
- **formatPortSpec** is called the parser's inverse. It is one exactly for targets that do not start
  with `127.0.0.1:` followed by something that is no port; several backends on the loopback address
  are the common exception.

## Model

| member | source | states |
|---|---|---|
| `NoiseRecords.ChunksCover` | noise.go:137-158 | one Write sends its bytes in order and loses none, in ceil(n / 65519) records, none of them empty or too long |
| `NoiseRecords.SealedLengthFits` | noise.go:180-188 | the 16-bit length of a sealed record never wraps |
| `NoiseRecords.OpenSealed` | noise.go:160-201 | a reader at record n recovers exactly the plaintexts sealed from record n on |
| `NoiseRecords.OpenAllMonotone` | noise.go:190-201 | part of the wire shows a reader a prefix of the plaintext and nothing else |
| `NoiseRecords.ReadTakesFromStock` | noise.go:160-178 | a Read takes bytes off the front of what is readable, makes progress, and fails only when nothing is |
| `NoiseRecords.NoiseRefinesByteStream` | noise.go:137-201 | for all Writes and Reads of any sizes: read is a prefix of written, the missing suffix is `pending` plus the records in flight, no record is refused, and reading goes on while anything is missing |
| `Transport.RawConn.ReadFull` | noise.go:192-199 | gathers exactly n bytes from arbitrary pieces, or fails when there are fewer |
| `Transport.RawConn.ReadFrame` | noise.go:190-201 | succeeds exactly when a whole frame has arrived, and leaves what follows it |
| `Transport.RawConn.WriteFrame` | noise.go:180-188 | appends one frame |
| `Transport.NoiseConn.Write` | noise.go:137-158 | the loop sends exactly the sealed chunks, numbered on from the counter |
| `Transport.NoiseConn.Read` | noise.go:160-178 | implements the record-layer read, touching the wire only when `pending` is used up |
| `Transport.WsConn.Read` | wss.go:54-68 | hands out the concatenation of the binary messages in order, skipping empty and other ones, and fails only when none is left |
| `Transport.ReadFull` | protocol.go:60-107 | over any connection, fills the first n bytes of the caller's buffer in place and leaves the rest, exactly when n bytes are readable |
| `Transport.TrafficCarries` | noise.go:137-158 | whatever is written, the traffic carries the concatenation of the writes, in well-sized records under Noise |
| `Transport.EveryConnIsAByteStream` | wss.go:44-75 | over all three kinds of connection the far end can read exactly what was written |
| `Framing.ParseFrameInvertsFrame` | protocol.go:47-107 | a framed message is recovered with the stream left at the byte after it, or refused when over the reader's limit |
| `Framing.CutFrameIsShort` | protocol.go:60-107 | a frame cut anywhere is incomplete, never misread |
| `Bytes.BigEndian` | protocol.go:47-58 | the high byte of a length comes first, in both directions |
| `Framing.WriteString` | protocol.go:47-58 | writes one frame exactly when the target has at most 512 bytes, else nothing |
| `Framing.ReadString` | protocol.go:60-75 | returns the target exactly when a whole frame within the limit is readable |
| `Framing.WriteDatagram` | protocol.go:81-92 | writes one frame exactly when the datagram fits 16 bits, else nothing |
| `Framing.ReadDatagram` | protocol.go:94-107 | reads one datagram into the caller's buffer, leaving the rest of the buffer alone; too large and cut-off ones fail |
| `DatagramRelay.UdpTarget` | udp.go:211-219 | a target is UDP exactly when it starts with the marker, and the address is what follows |
| `DatagramRelay.FirstBackend` | udp.go:157-163 | the part before the first bar, or everything when there is none |
| `DatagramRelay.DecodePart` | protocol.go:81-107 | any part of a sequence of datagram frames decodes to a prefix of the datagrams, never too large, and to all of them exactly when everything is there |
| `DatagramRelay.PartOfAByteStream` | protocol.go:81-107 | traffic that arrived in part is readable as a prefix of what was written, over any connection |
| `DatagramRelay.DatagramsSurvive` | udp.go:79-146 | end to end over any connection, behind whatever it carried before, and for any part of the traffic: same target, whole datagrams, in order, the size error unreachable, nothing missing once all has arrived |
| `DatagramRelay.RepliesSurvive` | udp.go:175-192 | the same for the way back |
| `DatagramRelay.FramesBehind` | protocol.go:81-107 | behind any earlier writes the far end reads a prefix of the frames, and all of them once everything has arrived |
| `DatagramRelay.SendSession` | udp.go:101-146 | on a connection with any history, announces the target and then sends one frame per datagram, or nothing for an oversized target |
| `DatagramRelay.ReceiveAll` | udp.go:194-207 | the receiving loop, with one reused buffer, delivers exactly the datagrams the readable bytes decode to |
| `DatagramRelay.ServeUdp` | client.go:382-387 | reads the target, recognises UDP, uses the first backend and delivers the decoded datagrams |
| `Handshake.ServerHandshake` | protocol.go:156-205 | computes, over any connection, the verdict, the bytes sent and the bytes consumed, for every input |
| `Handshake.AdmitTunnelConn` | server.go:144-181 | the same with the busy test, the acknowledgement and the new epoch |
| `Handshake.ClientHandshakeControl` | protocol.go:211-243 | the same for a dialing control connection |
| `Handshake.ClientHandshakePool` | protocol.go:249-275 | the same for a dialing pool connection |
| `Handshake.Agreement` | protocol.go:156-302 | in every complete exchange both sides succeed exactly when the tags match and the slot is free or the epoch current, agree on role and epoch, and have consumed exactly each other's handshake |
| `Handshake.EqualTokensSucceed` | protocol.go:156-205 | with equal tokens only a taken slot or an outdated epoch stands in the way |
| `Handshake.AcceptsExactly` | protocol.go:156-205 | against anybody, byte for byte: which inputs the listener accepts, and as what |
| `Handshake.AnswersExactly` | protocol.go:156-205 | it says nothing to whoever does not open with "RMT1" and a role, its challenge to whoever does, and one byte of refusal to a wrong tag |
| `Handshake.DialsExactly` | protocol.go:211-285 | against anybody, byte for byte: what the dialer sends, and what it makes of each answer |
| `Handshake.ExchangeExists` | protocol.go:156-302 | such an exchange exists for all parties and whatever they send afterwards |
| `Handshake.EveryInterleavingCompletes` | protocol.go:156-302 | under every scheduling and cutting of the bytes the two programs send parts of one fixed exchange, never more than is due, and until it is complete one of them has more to send that it already knows |
| `CarrierRoundTrip.HandedOverClean` | server.go:144-181 | over any connection both sides succeed exactly when the handshake is to be granted, agree on what it established, and then read exactly what the other wrote behind it |
| `CarrierRoundTrip.ReverseCarrier` | udp.go:94-146 | on a pool connection the client dialed, handshake and UDP session together: the client reads the target and every datagram, the server every reply |
| `CarrierRoundTrip.DirectCarrier` | direct.go:317-322 | the same on one the server dialed |
| `CarrierRoundTrip.ReverseTcpCarrier` | server.go:426-442 | on a pool connection the client dialed, handshake and TCP user together: the client reads the target and then exactly the user's bytes, the server the backend's |
| `CarrierRoundTrip.DirectTcpCarrier` | direct.go:183-194 | the same on one the server dialed |
| `Generation.Server.Publish` | server.go:192-198 | the slot fields take one publication's values; the direct kinds do not set the output channel (direct.go:99-103) |
| `Generation.Server.Release` | server.go:248-256 | only the connection that holds the slot empties it, and says which channel is closed |
| `Generation.Server.TeardownEpoch` | server.go:266-288 | closes every listed carrier once, in order, of whatever generation |
| `Generation.Server.AdmitPoolConn` | server.go:306-337 | lists the carrier or closes it, by mode and room |
| `Generation.Server.TakePoolConn` | server.go:344-352 | hands out the connection queued longest and removes it, or nothing exactly when none is queued |
| `Generation.OwnerGuardedSlot` | server.go:189-260 | over every run, overlapping control handshakes included: slot fields come from one publication by a running connection, no channel is closed twice, no pong meets a closed channel |
| `Generation.OnlyTheOwnerClears` | server.go:248-256 | releasing the slot, a superseded loop changes none of its successor's slot fields and does not close its channel; a closed channel is always the ending loop's own |
| `GenerationPool.StaleCarriersBounded` | server.go:174-179 | fine grain: with at most K handshakes between check and admission, stale carriers listed and in flight never exceed K |
| `GenerationPool.StaleBoundAttained` | protocol.go:190-202 | for every K some run reaches the bound |
| `GenerationStaleness.NoStaleExactly` | server.go:174-179 | fine grain: throughout a run nothing is listed behind a teardown that has been past its list if and only if no admission of the run is late |
| `GenerationStaleness.NothingTornListed` | server.go:266-288 | so without a late admission no listed carrier is of a torn-down generation |
| `GenerationStaleness.TeardownRemovesWhatWasListed` | server.go:266-288 | fine grain, everything else going on meanwhile: when a teardown returns, all that is listed was listed after it began |
| `GenerationStaleness.FlowsFreshExactly` | udpcarrier.go:174-195 | fine grain, mode udp: every queued flow's generation is still on throughout a run if and only if none ends with its own flow queued and none of its flows is queued after its end |
| `GenerationHandout.HandedOutOnce` | server.go:306-359 | tcp, over every run: the connections that left the queue, in order, and those still in it are exactly the admissions in order, so none is handed out twice and first come is first served |
| `GenerationHandout.SessionsConserved` | server.go:317-397 | tcpmux, over every run: the sessions pruned as closed, dropped by teardowns and still listed are together exactly the admissions, as often as they were admitted |
| `GenerationHandout.SessionsInOrder` | server.go:325-327 | tcpmux, over every run: the list is in the order of admission |
| `GenerationHandout.FlowsClaimedOnce` | udpcarrier.go:187-249 | udp, over every run: the flows claimed, in order, and those still queued are exactly the flows that found room, in order |
| `GenerationHandout.NothingGetsLost` | server.go:144-181 | over every run each handshake let in was admitted, failed or is on its way; each tested control connection gave up or is on record; each request sent or still holds its channel |
| `GenerationHandout.LetInExactly` | protocol.go:190-202 | over every run a pool handshake is let in exactly for the epoch of a control connection that runs and, on a listening box, holds the slot |
| `GenerationHandout.NobodyIsStuck` | server.go:144-288 | what each participant can do next, among it that a control connection can test exactly while the slot is free and a user can take exactly while something is queued |
| `GenerationHandout.FusedPublicationIsSafe` | server.go:153-198 | were the test and the publication one step, every listed carrier would present the published epoch throughout every coarse run |
| `GenerationSafety.OverEmptiesPool` | server.go:248-288 | release and teardown together leave nothing listed |
| `GenerationTeardown.TeardownSparesExactly` | server.go:248-288 | when all listed carriers match, ending a connection closes only its own generation's carriers if and only if it owns the slot or nothing is listed |
| `GenerationTeardown.OwnTeardownsExactly` | server.go:189-288 | throughout a run of clean publications no teardown touches another generation if and only if every loop ends owning the slot or with nothing listed |
| `GenerationTeardown.NoForeignTeardown` | direct.go:43-76 | publishing only into a free slot, or control connections one after the other, ensures that in every coarse run of every kind |
| `GenerationTeardown.SupersededTeardownEmptiesSuccessor` | server.go:259-288 | a run in which a superseded loop's end closes its live successor's carrier |
| `GenerationSafety.NoCarrierOfAnEndedGeneration` | server.go:306-397 | coarse grain, modes tcp and tcpmux: no listed carrier belongs to a generation that has ended, over every run of all three kinds |
| `GenerationSafety.QueuedFlowsExactly` | udpcarrier.go:174-195 | coarse grain, mode udp: every queued flow belongs to a running generation throughout a run if and only if every generation ended with none of its flows queued |
| `GenerationSafety.DeadFlowCanBeClaimed` | server.go:266-288 | a run after which a flow of a torn-down generation is next to be claimed (udpcarrier.go:227-249) |
| `GenerationSafety.SequentialSafety` | direct.go:43-76 | where control connections follow one another, every listed carrier presents the published epoch throughout every coarse run |
| `GenerationSafety.PublicationOverAPool` | server.go:192-198 | a publication keeps every listed carrier matched exactly when nothing is listed, and a free slot guarantees that |
| `GenerationSafety.PublishedEpochSafety` | server.go:138-181 | coarse grain: every listed carrier presents the published epoch throughout a run if and only if every publication found the pool empty |
| `GenerationSafety.OverlapBreaksMatching` | server.go:153-166 | a run in which two overlapping control connections break it |
| `GenerationSafety.RequestMorePanicsExactly` | server.go:290-304 | the send meets a closed channel if and only if the generation read from ended in between while owning the slot |
| `GenerationSafety.RequestMoreCanPanic` | server.go:248-256 | a shortest run in which it does |
| `Wakeup.Notifier.Broadcast` | util.go:25-30 | closes the channel every waiter since the last broadcast holds, which was not closed before, and replaces it |
| `Wakeup.Notifier.Wait` | util.go:20-24 | returns the current channel, which is open |
| `Wakeup.LostWakeups` | server.go:363-376 | a caller sleeps beside a free slot with no announcement due only if one was announced between its look and its wait, or a slot was freed unannounced |
| `Wakeup.OverlookedMeans` | server.go:363-376 | in every run, what is recorded as overlooked is exactly that, in both directions |
| `Wakeup.EveryoneWakes` | server.go:369-374 | a broadcast wakes everyone asleep at that moment, and the timer everyone else |
| `Wakeup.SleepsExactly` | server.go:369-374 | over every run a caller that waited can wake exactly when a broadcast has come since or 300 ms have passed, and then looks again |
| `Wakeup.SlotsAccounted` | server.go:363-376 | over every run what was listed or freed was taken by one caller, was lost, or is still free |
| `Wakeup.BroadcastCanBeMissed` | server.go:365-371 | a run in which a broadcast falls between look and wait |
| `SessionPool.Sessions.PickSession` | server.go:378-397 | despite the aliasing the stored list becomes exactly the open sessions in their order, and the result is the first least-loaded one below the cap, null exactly when all are full |
| `SessionPool.OpenAtExact` | server.go:382-388 | compaction keeps the order and drops the closed sessions only |
| `SessionPool.FirstLeastLoadedUnique` | server.go:389-393 | that description fits one answer only |
| `StreamSlots.SlotsConserved` | server.go:444-475 | over every run a session's counter equals its unreleased carriers minus its doubly released UDP sessions, so equals them if and only if there are none of those |
| `StreamSlots.PicksAccounted` | server.go:460-470 | over every run each pick has ended with a stream, has failed, or is on its way |
| `StreamSlots.NobodyIsStuck` | udp.go:57-134 | over every run a picked session can be opened or fail, and what the reaper, the reader and the flow can release |
| `StreamSlots.SlotsBounded` | server.go:378-397 | with at most K callers between pick and increment the counter never exceeds max + K - 1, and the carriers really open exceed that by at most one per doubly released UDP session |
| `StreamSlots.SlotBoundAttained` | server.go:460-470 | some run reaches both, for every max, K and number of doubly released sessions |
| `StreamSlots.ReapedMeansTwice` | udp.go:67-72 | a reaped UDP session can always be released again, and then is one short |
| `StreamSlots.DoubleReleaseGoesNegative` | udp.go:112-121 | a run that takes the counter to -1 with nothing in use |
| `Maintainer.Ticker.Tick` | client.go:246-269 | the loop bodies issue exactly the spawns or shrinks of the tick's rule and keep `overSince` |
| `Maintainer.GrowsExactly` | client.go:249-253 | a tick grows the pool exactly when it is below MinIdle, and exactly up to it |
| `Maintainer.RefillsAtOnce` | client.go:249-253 | any pool below MinIdle is at MinIdle after one settled tick and stays there |
| `Maintainer.OverMeaning` | client.go:254-267 | `overSince` is the time of the first tick of the current stretch above MaxIdle |
| `Maintainer.ShrinksExactly` | client.go:254-265 | a tick shrinks if and only if every tick over more than IdleGrace saw more than MaxIdle, and by half the excess rounded up |
| `Maintainer.TcpClient.Drain` | client.go:246-269 | tcp mode: with enough idle workers, each gone before the next tick, k ticks of the maintainer's loop leave floor(E / 2^k) of an excess E and close that many stop channels, each once |
| `Maintainer.TcpClient.DrainTick` | client.go:254-265 | one such tick stops half the excess, rounded up |
| `Maintainer.DrainHalves` | client.go:254-265 | when spawns and shrinks settle between ticks, an excess E is floor(E / 2^k) after k ticks, and the pool never falls below MaxIdle |
| `Maintainer.DrainTime` | client.go:254-265 | the excess is gone exactly from tick floor(log2 E) + 1 on |
| `Maintainer.TcpPool.ShrinkOne` | client.go:303-312 | takes one idle connection off the map and closes its own channel, never a closed one |
| `Maintainer.TcpPool.ShrinkBatch` | client.go:258-262 | b calls stop min(b, idle) different idle connections, each once |
| `Maintainer.MuxPool.ShrinkOne` | client.go:314-322 | the first session without streams is stopped and stays listed |
| `Maintainer.MuxBatchPanicsExactly` | client.go:314-322 | exactly when a batch closes a channel twice |
| `Maintainer.DrainTickCanPanic` | client.go:257-262 | an excess of three or more and one idle session are enough |
| `Failover.PickProfile` | profiles.go:105-116 | the first profile not cooling down, or the first of all when every one is |
| `Failover.ProfileState.Addr` | profiles.go:63-70 | the address at the index |
| `Failover.ProfileState.RotateAddr` | profiles.go:72-82 | steps to the next address and wraps around |
| `Failover.ProfileState.OnFailure` | profiles.go:118-130 | counts the failure and sets the capped cooldown |
| `Failover.ProfileState.OnSuccess` | profiles.go:132-138 | clears failures and cooldown, keeps the address |
| `Failover.ProfileState.AfterClientAttempt` | client.go:78-91 | the profile makes the transition of the outcome, and the backoff is reset exactly on success |
| `Failover.ProfileState.AfterServerAttempt` | direct.go:59-72 | the very same transition in the dialing server |
| `Failover.CooldownMeaning` | profiles.go:118-138 | over whole runs: a profile cools down only because its latest attempt failed, until 5 to 180 seconds after that |
| `Failover.CooldownExactly` | profiles.go:118-138 | over whole runs a profile cools from its latest failure for min(180 s, 5 s per strike): three strikes for a connection that was established and died within 20 s, one for any other failure, none left after one that lasted |
| `Failover.PreferredOnesFailedRecently` | profiles.go:105-130 | whenever a profile is chosen, every preferred one failed in its latest attempt, at most 180 seconds ago |
| `Failover.RetriedAfterCooldown` | profiles.go:105-116 | a profile that has not failed within 180 seconds is chosen unless a preferred one is |
| `Failover.NotRetriedAtOnce` | profiles.go:105-130 | a profile is not retried within 5 seconds of failing, unless it is the first and all are cooling down |
| `Failover.AddressCountsFailures` | profiles.go:63-82 | over whole runs the address index is the number of failures modulo the number of addresses, so the fallback is unreachable |
| `Failover.EveryAddressOnce` | profiles.go:72-82 | in any run, any B + 1 successive uses of a profile with B backups that all fail try every address exactly once |
| `Failover.Backoff.Wait` | util.go:50-62 | waits the current delay and doubles it up to the maximum |
| `Failover.BackoffIsGeometric` | util.go:41-64 | the k-th wait since a reset is min(max, min * 2^k), for any constructor arguments |
| `Degradation.ClientReadLoop` | client.go:149-190 | the loop stops at the first event that must stop it, for its reason, with `badStreak` the trailing run of slow timed pongs |
| `Degradation.ServerReadLoop` | direct.go:126-160 | the same in the dialing server |
| `Degradation.StopsFirstUnique` | direct.go:126-160 | both loops stop at the same event for the same reason |
| `Degradation.DegradedExactly` | profiles.go:38-47 | the loop ends as degraded if and only if its last event is the first to complete three consecutive slow round trips |
| `Degradation.StopsExactly` | client.go:152-189 | the loop is stopped by a failed read, the peer's close, or the first event to complete three slow round trips in a row, by nothing else |
| `Degradation.WantedCounts` | client.go:180-184 | the requests the client counts are the places where NEED_CONN was read |
| `UdpCarrier.Demultiplexer.OnDatagram` | udpcarrier.go:158-195 | a known peer's datagram goes to that peer's flow alone, an authentic first one files and queues a new flow, anything else changes nothing |
| `UdpCarrier.Demultiplexer.Reap` | udpcarrier.go:212-218 | idle flows leave the map and stay queued |
| `UdpRuns.SessionsAreIsolated` | udpcarrier.go:254-374 | over every interleaving: no two sessions share a flow, and what a session wrote to its user or to its peer is read off, in order, what the sockets delivered from that very peer or user |
| `UdpRuns.LogsAreWhatArrived` | udpcarrier.go:148-158 | the logs those results speak of are what the sockets delivered in the run, whatever became of it |
| `UdpRuns.DeliveredExactly` | udpcarrier.go:158-179 | over every run: a datagram of the pool socket ends up in a flow's channel, queued or taken by its session, if and only if the map led its peer to that flow when it arrived and one of the 64 slots was free when it was handed over |
| `UdpRuns.UserDeliveredExactly` | udpcarrier.go:295-338 | over every run: a user's datagram ends up in a session's channel if and only if its port's reader does not give up finding a flow and sends it to that session with one of the 64 slots free |
| `UdpService.KnownUserServed` | udpcarrier.go:304-318 | over every run: a known user's datagram ends up in the channel of session n if and only if the port's map led the user to n and n has a slot free at the port's next send; until then the port claims no flow and starts no session |
| `UdpService.UnknownUserServed` | udpcarrier.go:320-336 | over every run: a first datagram ends up in the channel of session n if and only if the port starts n and then sends, before it gives up |
| `UdpService.NewSessionServes` | udpcarrier.go:321-331 | a session is started for the user the port read last, with the flow it claimed last, and is then what the map leads that user to |
| `UdpService.KnownExactly` | udpcarrier.go:284-290 | over every run the map leads a user to session n if and only if n was started for that user last and neither reaped nor left since |
| `UdpService.FlowsClaimedOnce` | udpcarrier.go:187-249 | over every run the flows claimed, in order, and those still queued are exactly those that found room in the queue, in order |
| `UdpService.EntriesExactly` | udpcarrier.go:158-221 | over every run: what files a flow in the map, and the three things that take it out |
| `UdpService.ReachableWasQueued` | udpcarrier.go:187-195 | over every run a flow datagrams can reach has been queued, or its reader is still at it: one that found the queue full leaves no entry |
| `UdpService.OutputsAreIsolated` | udpcarrier.go:352-373 | over every interleaving, what leaves the sockets for a user or a peer is read off, in order, what that very peer or user sent |
| `UdpService.OutputIsWritten` | udpcarrier.go:358-369 | what leaves a socket is exactly what the writes that succeeded took from the head of the channel |
| `UdpService.NobodyIsStuck` | udpcarrier.go:254-374 | over every run each reader and session can go on, a session exactly when something is queued for it |
| `UdpService.EndsOnce` | udpcarrier.go:340-350 | over every run a session ends once, and then writes and leaves no more |
| `UdpRuns.EntryLostExactly` | udpcarrier.go:203-221 | over every run: the entry of a session's flow is taken away by the flow reaper or by the end of a session with the same peer, and by nothing else |
| `UdpRuns.ReapCutsOffLiveSession` | udpcarrier.go:212-218 | a run after which a session is being served and every datagram of its peer leaves no trace |
| `UdpRuns.EndCutsOffExactly` | udpcarrier.go:341-350 | the end of a session removes its peer's entry and no other; it cuts off another flow exactly when the entry was not its own flow |
| `UdpRuns.EndCanCutOffAnother` | udpcarrier.go:347-349 | a run in which a session being served is cut off that way |
| `BackendPool.Pool.constructor` | backendpool.go:64-77 | the pool holds the non-blank trimmed parts in order, all healthy |
| `BackendPool.Pool.OnProbe` | backendpool.go:90-100 | the maps keep recording, for every backend, the failures since its last success and whether they are fewer than three |
| `BackendPool.Pool.Pick` | backendpool.go:117-139 | returns the backend whose turn it is among the healthy ones, or the fallback, and moves the turn only in the first case |
| `BackendPool.UnhealthyExactly` | backendpool.go:93-98 | a backend is out if and only if its last three probes all failed |
| `BackendPool.LiveExactly` | backendpool.go:127-132 | the list to pick from is exactly the healthy backends in the target's order, none left out |
| `BackendPool.PicksGoRound` | backendpool.go:125-138 | over any run of probes and picks that leaves everybody's health as it is, the i-th pick returns the next healthy backend of the target, going round all of them |
| `BackendPool.FairTurns` | backendpool.go:136-138 | m consecutive picks give each of m live entries one turn, and over any number two entries differ by at most one |
| `BackendPool.EvenShares` | backendpool.go:117-139 | in such a run every healthy backend is returned equally often up to one, once each in a full round, and an unhealthy one never |
| `BackendPool.OutagesKeepTheTurn` | backendpool.go:133-138 | over every run the turn moves by one for each pick made while some backend was healthy, and by nothing else |
| `BackendPool.FallbackIsTheFirst` | backendpool.go:117-135 | with nobody healthy, or one backend only, a pick returns the first backend and changes nothing |
| `BackendPool.HistoryIsTheProbes` | backendpool.go:90-100 | health is judged by exactly the probes of the run, in order |
| `BackendPool.BackendsExactly` | backendpool.go:64-69 | for every target, the backends are its parts that are not blank, trimmed, in order |
| `BackendPool.UnhealthyPickedExactly` | backendpool.go:133-135 | an unhealthy backend is returned if and only if all are |
| `BackendPool.PickNamesABackend` | backendpool.go:64-71 | for every target the parser accepts, a pick after whatever probes and picks is one of its backends and never empty |
| `BackendPool.Registry.GetBackendPool` | backendpool.go:57-84 | one pool per target, made on first use and shared after |
| `PortSpec.ParserReturns` | ports.go:37-66 | a port map is the parser's result for some text if and only if it is well formed |
| `PortSpec.RoundTripExactly` | ports.go:127-139 | for every port map the parser can return, printing and parsing gives it back if and only if its target is not 127.0.0.1: followed by no valid port |
| `PortSpec.SeveralLoopbackBackends` | ports.go:130-139 | so no list of several backends that begins there round-trips |
| `PortSpec.LoopbackBackendsDoNotRoundTrip` | ports.go:135-137 | one such port map, concretely |
| `PortSpec.PortCharacters` | ports.go:68-71 | a valid port holds no separator of the notation and no white space |
| `PortSpec.PortsExactly` | ports.go:68-71 | the ports are exactly an optional plus sign, zeros and the usual notation of 1 to 65535 |
| `PortSpec.PaddedExplicit` | ports.go:38-41 | white space around port and target changes nothing in the explicit form |
| `PortSpec.PaddedShort` | ports.go:54-60 | nor around the two ports of the short form |
| `PortSpec.PrintedIsShortest` | ports.go:127-139 | no text that parses to a port map is shorter than its printed form |
| `PortSpec.LineExactly` | ports.go:18-35 | a line is good exactly when its parts that are not blank all parse and there is one, and then lists what they parse to, in order |
| `PortSpec.BlankPartChangesNothing` | ports.go:20-24 | a blank part changes no line |
| `PortSpec.ParsePortsLine` | ports.go:18-35 | the loop returns the parts' port maps in order, or an error for a bad part or an empty line |
| `PortSpec.LineIsWellFormed` | ports.go:18-35 | what it returns is not empty and every entry well formed |
| `PortSpec.LineRoundTripExactly` | ports.go:18-35 | the comma-joined printed form of any such list parses back to that list if and only if every entry round-trips |
| `Text.SplitParts` | ports.go:47-51 | splitting gives parts free of the separator that join to the text |
| `Text.SplitJoin` | ports.go:20-21 | joining parts free of the separator and splitting gives them back |
| `Pipe.PipeSafety` | pipe.go:68-103 | under every scheduling: no signal blocks, each connection is closed once and not before both copies ended or a grace period passed, a destination that can be half-closed is, after its copy, and Pipe returns only after both goroutines |
| `Pipe.IdleExactly` | pipe.go:73-91 | nothing can move exactly when Pipe has returned, both copies are at work, or one is and its grace period runs |
| `Pipe.PipeTerminates` | pipe.go:68-92 | no run has more than thirteen operations |
| `Pipe.OneGraceAtMost` | pipe.go:77-91 | when goroutines do what they can before the clock moves, Pipe returns at the moment the second copy ends, at most one grace period after the first |

## Left out

- Sockets, TLS, HTTP, QUIC, KCP, smux and DNS: a carrier is an ordered byte stream, a mux session an object with a closed flag and a stream count.
- Cryptography: the cipher is any one that opens what it sealed and adds 16 bytes, the tag any function of token and challenge with 32 bytes; epochs and challenges are values that are given or fresh. Nothing about secrecy is claimed.
- Write errors and read deadlines: a read fails when no more bytes are there; a write succeeds.
- Time-outs are steps that may happen; durations and counters do not overflow (`failCount * 5s`, the pick counter `next`, the stream counters).
- Generation: the output channel's capacity, its writer goroutine and the heartbeats on it are not modelled, only its closes and the sends that can meet them.
- Generation: the dialing server's maintainer can still start a pool dial in the moment its generation is cancelled; `Enter` for that kind is allowed while the control loop runs.
- GenerationSafety.NoCarrierOfAnEndedGeneration: coarse grain only; at the fine grain it is false, which StaleBoundAttained shows; NoStaleExactly has the condition under which it holds there, StaleCarriersBounded the bound that always does. Mode udp is QueuedFlowsExactly's.
- Client workers (`tcpPoolWorker`, `muxSessionWorker`, `runOnce`'s set-up) appear as pool handshakes that present any epoch the kind admits.
- Wakeup: a look that succeeds takes its slot at once. Wakeup.LostWakeups is one direction, since another caller may have taken what was overlooked.
- SessionPool.Sessions.PickSession: the stream counts do not change during one pass; the code reads them atomically, twice each.
- Maintainer.DrainHalves: assumes that spawns and shrinks take effect before the next tick and that nothing else changes the count. TcpClient.Drain shows it of tcp mode; in tcpmux mode it can fail from an excess of three on, as DrainTickCanPanic shows.
- The dialing server's `dialMaintainer` and `poolCount`: a top-up to MinIdle without a drain, which Maintainer's rule contains.
- Failover: `buildProfiles` is the list of enabled entries it is given; the log lines are left out.
- Text: strings are sequences of Unicode characters, as valid UTF-8 decodes; invalid UTF-8 is not modelled.
- UdpRuns, StreamSlots, Wakeup, Pipe and the generation runs are state machines on values, since Dafny has no goroutines; object identity is a number there. The bytes copied by Pipe are not modelled, only when the copies end.
- UdpRuns: a datagram is one indivisible value; the client's two pumps and `udpAuthTag` are not modelled, the tag check being a given answer. When the reapers strike is left open, so no run is excluded for its times.
- PortSpec: `askPorts` and the UDP mark that `joinPortSpecs` prints after an entry; `formatPortSpec` itself drops the mark.
- Menus, metrics, configuration files, service management, benchmarks and self-update.
