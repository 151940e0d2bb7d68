# Voice relay: a Dafny model

A model of the platform-free parts of the voice relay, with proofs about every run of them.

| file | what it models |
|---|---|
| `RestartPolicy.dfy`, `Watchdog.dfy` | the watchdog that respawns the relay process: policy object and loop |
| `JitterBuffer.dfy`, `SendOrder.dfy`, `TargetDepth.dfy` | one playback stream of the client: sorted insert, cap, adaptive target; sending order across the wrap of the frame number; when the target moves and playback stops |
| `Capture.dfy` | microphone packets cut into frames, the 2:1 decimator with its history, both builds |
| `Crypto.dfy`, `SealedChannel.dfy` | sealing and opening of datagrams; one direction of a session over a bad network |
| `Relay.dfy`, `TokenHistory.dfy` | tokens, sessions and addresses of the relay; whole runs with their history |
| `AddressIndex.dfy`, `SessionClock.dfy`, `RelayLaws.dfy` | when the address index is exact and what a stale entry costs; what keeps a session alive; what each datagram does, byte by byte |
| `NetSession.dfy`, `SessionRun.dfy` | the client half of the protocol; a session end to end, both directions |
| `Registry.dfy`, `ControlLink.dfy` | players, channels and two-way membership; the bridge's mirror and its op stream |
| `Proximity.dfy`, `ProximityLaws.dfy`, `SpatialGrid.dfy` | who hears whom in person, and the laws of it; the incrementally kept hash grid |
| `NearSet.dfy`, `NearCap.dfy`, `Talk.dfy` | the nearest-N admission; how many speakers it lets through; talk detection |
| `BusRouter.dfy`, `FrameGain.dfy`, `KeyMask.dfy` | filtered channel buses; the packets of one frame and the order of the walk; key masks |
| `Engine.dfy`, `Suppression.dfy`, `BusNumbers.dfy`, `RunLaws.dfy` | the engine over every list of inputs; direct delivery and the bus together; packet numbers, records and recent speakers over whole runs |
| `Common.dfy`, `Ints.dfy`, `Reals.dfy` | shared definitions; fixed-width integers; products and quotients of reals |

Objects that the source updates in place are classes here. Each of their methods is proved against a
function of the old state, or against a predicate that fixes the outcome where the source walks a
hash table and the order is not determined. Beside these, the effect of each operation is stated in the
fields, bytes and constants of the source, without those functions: `Engine.FanIsPlain`,
`BusRouter.BurstByField`, `RunLaws.ControlByField`, `Registry.OpByField`, `RelayLaws`, `Crypto.WireByField`,
`TargetDepth`. What the source promises is then proved about those
functions and predicates, and about whole runs: `Watchdog.Watch`, `JitterBuffer.Exec`,
`Capture.CaptureDirect`, `SealedChannel.Exec`, `TokenHistory.Exec`, `SessionRun.Exec`,
`ControlLink.Replicate`, `NearSet.Run`, `Engine.Drive`.

The cipher, the key exchange, the Opus and RNNoise codecs, square root and power are parameters.
Proofs about the cipher ask that decryption undoes encryption and that the tag is 16 bytes
(`Crypto.Sound`, met by the build without libsodium: `Crypto.PassThroughIsSound`) and, for what a
receiver accepts, that nobody forges tags (`SealedChannel.Unforged`, `SessionRun.Unforged`).
Floating-point numbers are real numbers; integers have the source's widths where they wrap.

## What the proofs turned up

- A negative configured range still passes the squared distance comparison but searches too small a square
  of cells. The grid misses nobody exactly when the range is not negative (`SpatialGrid.CoversIff`).
- `shared/protocol.h:295-298` says pair mutes leave channels unaffected. Of the buses that holds: the
  burst of a channel is the same whoever mutes whom (`Suppression.MutesLeaveTheBus`). But with
  double-play suppression a talker in earshot is left out of the bus whether or not the direct frame
  arrives. A listening member gets the talker directly, or as a source of the bus, exactly when the
  talker is out of earshot, or the frame is carried and the member is placed, does not mute the talker
  and has room under the cap (`Suppression.HeardEitherWayIff`). A source still delivers nothing on a bus
  that is throttled, muted or not encoded. `Suppression.HeardNeitherWay` is a scene where the member gets
  the talker neither way.
- `shared/protocol.h:125` says that only the highest-priority active bus is heard. Channels become
  active one by one as a frame walks the talker's set, so a lower channel walked first still has full
  gain. The gain is the same in every order exactly when the channel is outranked already by buses
  active before the frame, or is not outranked even when all keyed ones are
  (`FrameGain.GainSettledIff`). Otherwise both gains occur (`FrameGain.BothOrders`,
  `FrameGain.FirstFrameUnsettled`).
- A bus emission at a clock reading of zero is not remembered; the 18 ms gap is guaranteed exactly
  after the others (`BusRouter.GapIff`).
- The jitter buffer compares 16-bit numbers without wrap-around. When frames arrive in sending order,
  each is queued behind all those buffered, in every state of a run, if and only if no arrival meets a
  non-empty buffer with a wrap since the arrival before (`SendOrder.QueuedAsSentIff`); then frames are
  played as sent (`SendOrder.PlayedAsSent`). Otherwise a frame from after the wrap may be played first
  (`JitterBuffer.WrapPlaysNewestFirst`), and a full buffer drops a newcomer at once if and only if
  nothing buffered has a lower number (`SendOrder.FullDropsNewcomerIff`).
- `core/include/engine.h:65-67` says that only the N loudest speakers get through to a listener. The cap
  bounds the set, not the speakers forwarded: with nothing going stale, at most N distinct speakers
  reach the listener if and only if no offer trades a weaker entry away (`NearCap.WithinCapIff`). Offers
  of rising volume all get through (`NearCap.RisingAllForwarded`, `NearCap.TwoThroughOne`).
- Bits of a key mask repeat every 32 channels. A player who keys one channel by its bit keys that one
  alone if and only if no other filtered channel of theirs has the same remainder
  (`KeyMask.KeysOneIff`).
- Opening a sealed empty text moves the high-water mark but reports nothing, as for a refusal
  (`SealedChannel.HandedOnIff`).
- The address index is meant to lead only to the addresses sessions have. A handshake keeps it exact
  if and only if the player had no live session (`AddressIndex.RedeemExactIff`), and the index is exact
  in every state of a run if and only if no Ack replaced a live session
  (`AddressIndex.AlwaysExactIff`). A stale entry outlives bye and cleanup; while it leads to a live
  session no request from that address is acknowledged, and datagrams from it are taken to belong to
  the session (`AddressIndex.StaleStays`, `Relay.OldAddressStaysOwned`).
- The watchdog measures health from the last spawn it recorded: the first one, recorded whether or not
  it worked, and later those that worked. While respawning keeps failing, the back-off grows until that
  instant is old enough and then falls back to the base delay (`RestartPolicy.FailedSpawnsReset`).
- The configuration does not reject a negative falloff exponent. With one, volumes exceed one: away from
  the source and short of the edge, an open volume is a fraction exactly when the exponent is not
  negative (`Proximity.FractionIff`).

## Model

| member | source | states |
|---|---|---|
| RestartPolicy.Policy.OnCrash | shared/restart_policy.h:32-40 | a crash joins the window and the history, counts as the first in a row after a healthy run and as one more otherwise, and postpones the next spawn by the back-off |
| RestartPolicy.Policy.OnSpawn | shared/restart_policy.h:43-43 | only a successful spawn is recorded, and nothing else changes |
| RestartPolicy.Policy.Decide | shared/restart_policy.h:46-52 | gives up if and only if the full crash history, seen through the window, exceeds the limit; waits if and only if it does not and the back-off is still running |
| RestartPolicy.Policy.BackoffMs | shared/restart_policy.h:54-60 | the doubling loop with early exit equals base times a power of two, capped, and never leaves 34 bits |
| RestartPolicy.DelayDoubles | shared/restart_policy.h:56-59 | the first crash waits out the base delay and each further one twice as long, up to the cap |
| RestartPolicy.Policy.PruneWindow | shared/restart_policy.h:65-71 | the kept vector is the whole crash history filtered to the window, though it was filtered many times before |
| RestartPolicy.Policy.Compact | shared/restart_policy.h:65-71 | compaction within the vector keeps exactly the recent crashes, in order |
| RestartPolicy.RecentTwice | shared/restart_policy.h:65-71 | pruning at two successive instants is pruning the history once at the later |
| RestartPolicy.RecentCountsTail | shared/restart_policy.h:65-71 | a tail of the history lying in the window is counted in full |
| RestartPolicy.FailedSpawnsReset | shared/restart_policy.h:32-43 | while spawns fail, crashes in a row add up exactly until the last good spawn is old enough to count as healthy |
| Watchdog.Watch | shared/relay_launcher.h:105-142 | in every run: at most maxInWindow + 1 respawns in any window; each waits out its back-off, which goes by the crashes in a row since the last healthy run; giving up happens exactly at the first crash that overfills the window and is final; undisturbed, every death is answered |
| Watchdog.RespawnBound | shared/relay_launcher.h:116-140 | attempts no further apart than the window number at most maxInWindow + 1 |
| Watchdog.SleepOut | shared/relay_launcher.h:134-136 | sleeping in slices that may each overshoot never undershoots the back-off unless shut down meanwhile |
| JitterBuffer.Stream.PushFrame | client/src/audio_playback.cpp:217-220 | the scan, insertion and cap do to the queue what the sorted insertion of the model does |
| JitterBuffer.Stream.Step | client/src/audio_playback.cpp:143-159 | one playback tick changes the five fields and yields a frame as the tick function of the model says, whose every move the rows of `TargetDepth` fix |
| JitterBuffer.PushKeeps | client/src/audio_playback.cpp:231-234 | a push keeps the queue sorted and within 16, and what was buffered plus the new frame is what is buffered plus what was dropped |
| JitterBuffer.TickKeeps | client/src/audio_playback.cpp:143-159 | a tick keeps the bounds on target and starvation and only moves frames out |
| JitterBuffer.RunKeeps | client/src/audio_playback.cpp:29-33 | in every run: sorted, at most 16 frames, target in 2..10, starve in 0..9, target at least min(10, 2 + starve) |
| JitterBuffer.Conservation | client/src/audio_playback.cpp:217-220 | in every run, frames pushed are frames played, dropped and still buffered, as multisets |
| JitterBuffer.PlayedInOrder | client/src/audio_playback.cpp:143-159 | when no frame arrives below the number last played, numbers played never decrease |
| JitterBuffer.RebufferAtCeiling | client/src/audio_playback.cpp:154-158 | in every run, playback falls back to prebuffering only with an empty queue and the target at 10 |
| JitterBuffer.RestartsIff | client/src/audio_playback.cpp:144-146 | after any run, a waiting stream plays on the next tick if and only if enough frames arrived; the cap never prevents it |
| JitterBuffer.ShrinkIsEarned | client/src/audio_playback.cpp:150-153 | in every run, the target shrinks only after 250 healthy ticks in a row |
| TargetDepth.TargetMoves | client/src/audio_playback.cpp:147-158 | in every run the target falls by exactly one if and only if it is above 2 and this tick makes at least 250 healthy ones in a row since it last moved; it rises by exactly one if and only if the stream plays with nothing buffered and the target is below 10; otherwise it stays |
| TargetDepth.PlayingStopsAndStarts | client/src/audio_playback.cpp:144-157 | in every run playback stops exactly at the tenth tick in a row that finds nothing buffered, and starts exactly at a tick that finds at least the target |
| TargetDepth.TickPlays | client/src/audio_playback.cpp:146-148 | in every run a tick plays the frame of the lowest number if and only if one is buffered and the stream plays or has enough, and no other frame leaves |
| TargetDepth.ArrivalHolds | client/src/audio_playback.cpp:217-220 | an arrival adds one to what is buffered, up to 16 |
| TargetDepth.StartsAtThree | client/include/audio_playback.h:72-80 | a new stream waits for three frames |
| JitterBuffer.SentOrderKeptIff | client/src/audio_playback.cpp:217-219 | one insertion: a frame sent after the last of those buffered is queued behind them if and only if the 16-bit counter did not wrap in between |
| SendOrder.QueuedAsSentIff | client/src/audio_playback.cpp:217-220 | in every run with arrivals in sending order, each is queued behind all those buffered if and only if no arrival meets a non-empty buffer with a wrap since the arrival before |
| SendOrder.PlayedAsSent | client/src/audio_playback.cpp:143-159 | then the frames played and buffered are, in order, some of those that arrived |
| SendOrder.FullDropsNewcomerIff | client/src/audio_playback.cpp:217-220 | a full buffer drops a newcomer at once if and only if nothing buffered has a lower number |
| JitterBuffer.WrapPlaysNewestFirst | client/src/audio_playback.cpp:217-219 | a run over the wrap in which the newest frame is played before two buffered ones |
| Capture.Decimator2.FilterAt | client/src/audio_capture.cpp:65-71 | a sum over block and history is the filter sum over the whole signal since the start |
| Capture.Decimator2.Refill | client/src/audio_capture.cpp:72-72 | the history is again the last 32 samples of the whole signal |
| Capture.Decimator2.Process | client/src/audio_capture.cpp:64-73 | filtering block by block, for even blocks of at least 32 samples, continues the decimation of the concatenated signal |
| Capture.DecimatedExtends | client/src/audio_capture.cpp:64-73 | appending samples leaves the outputs so far as they were and adds those of the appended part |
| Capture.AccCausal | client/src/audio_capture.cpp:69-69 | an output sample does not depend on later input |
| Capture.ClickResponse | client/src/audio_capture.cpp:66-71 | a single click comes out as every other coefficient of the filter |
| Capture.AccLinear | client/src/audio_capture.cpp:69-69 | the filter is linear, so its coefficients say all |
| Capture.DirectCapture.Feed | client/src/audio_capture.cpp:245-254 | after any packet the finished frames are the consecutive 480-sample chunks of the stream and less than a frame is pending |
| Capture.DirectCapture.TakePart | client/src/audio_capture.cpp:248-253 | one round of the loop fills the pending frame and hands it on when full |
| Capture.DirectCapture.Copy | client/src/audio_capture.cpp:249-250 | the copied samples are those of the packet, muted or scaled, behind the pending ones |
| Capture.CaptureDirect | client/src/audio_capture.cpp:212-257 | the same over any list of packets: nothing lost, repeated or reordered |
| Capture.FramedUnique | client/src/audio_capture.cpp:245-254 | there is only one way to cut a stream into frames with less than one pending |
| Capture.PacketisationIrrelevant | client/src/audio_capture.cpp:245-254 | packets that carry the same stream give the same frames and the same rest |
| Capture.DenoisedCapture.Feed | client/src/audio_capture.cpp:225-243 | the raw blocks cut the stream, and the finished frames cut the decimated clean signal |
| Capture.DenoisedCapture.FinishBlock | client/src/audio_capture.cpp:231-242 | a full block is cleaned, filtered as a continuation of all before, and re-blocked |
| Capture.DenoisedCapture.Reblock | client/src/audio_capture.cpp:238-242 | 240-sample pieces are re-cut into 480-sample frames without loss |
| Capture.CaptureDenoised | client/src/audio_capture.cpp:212-257 | the same over any list of packets, for any noise suppressor that keeps the block length |
| Capture.DenoisedPacketisationIrrelevant | client/src/audio_capture.cpp:225-243 | with noise suppression too, frames depend on the stream and not on its packets |
| Crypto.Seal | shared/crypto.cpp:77-112 | refuses and leaves the buffer alone exactly when it is too small; otherwise the buffer starts with prefix, big-endian counter and ciphertext, and the rest is untouched |
| Crypto.Open | shared/crypto.cpp:114-150 | the bytes returned and the new high-water mark, for every datagram and every buffer |
| Crypto.RebuildCounter | shared/crypto.cpp:125-128 | the or-ed shifted bytes are the number the nonce tail spells |
| Crypto.CounterBytesAt | shared/crypto.cpp:102-103 | the byte the seal loop writes at a place is the byte the big-endian form has there |
| Crypto.SpellsItsBytes | shared/crypto.cpp:102-128 | writing a counter big-endian and reading it back gives the counter |
| Crypto.BigEndianHead | shared/crypto.cpp:126-128 | reading from the least significant end adds up to the big-endian number |
| Crypto.OpenUndoesSealIff | shared/crypto.cpp:77-150 | opening what was sealed gives the plaintext if and only if it fits the buffer and the counter is zero or above the mark |
| Crypto.WireByField | shared/crypto.cpp:84-110 | the envelope is 16 random bytes, the counter from its highest byte down, and what the cipher makes of the text under these 24 |
| Crypto.OpenByField | shared/crypto.cpp:119-148 | accepted if and only if long enough, the tag checks out, it fits, and the counter is zero or new; only then may the mark move, and only up |
| Crypto.PassThroughIsSound | shared/crypto.cpp:87-139 | the build without libsodium meets what the proofs ask of the cipher |
| SealedChannel.SendKeeps | relay/src/relay.cpp:336-345 | counters of sealed datagrams start at 1, increase strictly, and each datagram opens to what was sealed |
| SealedChannel.DeliverKeeps | shared/crypto.cpp:114-150 | a genuine datagram is accepted only above everything accepted before |
| SealedChannel.RunKeeps | shared/crypto.cpp:77-150 | both hold in every run over a network that drops, duplicates, reorders and injects |
| SealedChannel.AcceptedInOrder | shared/crypto.cpp:77-150 | in every run the plaintexts accepted are an in-order, duplicate-free subsequence of those sealed |
| SealedChannel.HandedOnIff | relay/src/relay.cpp:299-301 | after any run, a sealed datagram is handed on if and only if nothing as new was seen, it fits, and it is not empty |
| Registry.OpKeepsSymmetry | core/src/registry.cpp:22-72 | every channel and player operation keeps membership two-way and entries under their own id |
| Registry.OpByField | core/src/registry.cpp:22-72 | what each operation does to each field of the channel it names, and that it touches no other |
| Registry.WithoutStranger | core/src/registry.cpp:64-72 | removing someone who is in no channel changes nothing |
| Registry.Registry.Touch | core/src/registry.cpp:9-14 | get or create, leaving all others alone |
| Registry.Registry.RemoveFromAllChannels | core/src/registry.cpp:64-72 | walking the player's own set clears every channel of them |
| Registry.Registry.LeaveEach | core/src/registry.cpp:68-69 | the loop leaves no channel with the player |
| Registry.Registry.RemovePlayer | core/src/registry.cpp:22-26 | the player and all their memberships are gone, nothing else |
| Registry.Registry.CreateChannel | core/src/registry.cpp:28-33 | id, filter, positional flag and priority as given, members kept, no other channel touched |
| Registry.Registry.DestroyChannel | core/src/registry.cpp:41-48 | the channel is gone from the table and from every member's set |
| Registry.Registry.EvictMembers | core/src/registry.cpp:45-46 | the loop reaches every member |
| Registry.Registry.JoinChannel | core/src/registry.cpp:50-56 | joins both sides, creating the player if need be; joining an unknown channel changes nothing |
| Registry.Registry.LeaveChannel | core/src/registry.cpp:58-62 | leaves both sides, whichever exist |
| Registry.Registry.SetFilter | core/src/engine.cpp:80-85 | an existing channel has the new filter, its other fields and all other channels are as before |
| Registry.Registry.SetPriority | core/src/engine.cpp:86-91 | an existing channel has the new priority, its other fields and all other channels are as before |
| ControlLink.ControlLink.OnPlayerConnect | core/src/control_link.cpp:72-100 | makes sure of a bookkeeping entry and sends no channel operation |
| ControlLink.ControlLink.CreateChannel | core/src/control_link.cpp:184-195 | allocates the next id for a channel as described, and the mirror stays what the op stream says |
| ControlLink.ControlLink.DestroyChannel | core/src/control_link.cpp:204-208 | the channel and no other is gone; one op sent; the mirror stays what the op stream says |
| ControlLink.ControlLink.JoinChannel | core/src/control_link.cpp:210-214 | an existing channel has the member and is otherwise as before; one op sent; the mirror stays what the op stream says |
| ControlLink.ControlLink.LeaveChannel | core/src/control_link.cpp:216-220 | an existing channel lacks the member and is otherwise as before; one op sent; the mirror stays what the op stream says |
| ControlLink.ControlLink.SetChannelFilter | core/src/control_link.cpp:222-226 | an existing channel has the new filter and is otherwise as before; one op sent, also for an unknown channel |
| ControlLink.ControlLink.SetChannelPriority | core/src/control_link.cpp:228-232 | an existing channel has the new priority and is otherwise as before; one op sent, also for an unknown channel |
| ControlLink.ControlLink.OnPlayerDisconnect | core/src/control_link.cpp:234-239 | one op sent; no channel of the mirror keeps the player |
| ControlLink.GoneTwice | core/src/control_link.cpp:236-237 | pulling the player from all channels twice is the same as once |
| ControlLink.Apply | core/src/engine.cpp:55-91 | the relay's handling of an op has the effect the mirror's handling has |
| ControlLink.Replicate | core/src/control_link.cpp:184-239 | for every interleaving of calls and in-order arrivals, the operations sent are those called with ids from the allocator, the relay's channel table is the mirror as of the last delivered op and the mirror itself once the queue drains, and both sides stay two-way |
| ControlLink.MembershipSettled | core/src/registry.cpp:50-62 | the channel table settles every player's own set of channels |
| Proximity.AudibleIsNear | core/src/proximity.cpp:33-40 | only players of the same dimension strictly inside the range are heard |
| ProximityLaws.RangeByField | core/src/proximity.cpp:10-19 | a positive override goes before the preset; 0 whispers, 2 shouts, all others are normal |
| ProximityLaws.NearerIsLouder | core/src/proximity.cpp:41-48 | of two listeners in like surroundings the nearer hears at least as loud |
| ProximityLaws.ClosedAttenuates | core/src/proximity.cpp:50-55 | a closed vehicle on either side attenuates by the configured factor, and nothing else does |
| ProximityLaws.EndsOfTheFalloff | core/src/proximity.cpp:47-48 | full volume at the source, none at the range |
| ProximityLaws.DistanceLaws | core/src/proximity.cpp:21-25 | distance is symmetric, nought only at the same place, and counts all three coordinates |
| ProximityLaws.PanSides | core/src/proximity.cpp:60-62 | a voice comes from the side its speaker is on, and all the way from there at the range |
| Proximity.VolumeInBounds | core/src/proximity.cpp:42-56 | for exponents that are not negative, volume is a fraction, occluded or not |
| Proximity.FractionIff | core/src/proximity.cpp:47-48 | away from the source and short of the edge, an open volume is a fraction if and only if the falloff exponent is not negative |
| Proximity.ResultInBounds | core/src/proximity.cpp:28-67 | for exponents that are not negative, volume is a fraction and pan stays within the configured strength |
| SpatialGrid.SpatialGrid.EraseFromCell | core/src/spatial_grid.cpp:11-19 | swap-erase takes out exactly that id, and no empty cell remains |
| SpatialGrid.SpatialGrid.Rebuild | core/src/spatial_grid.cpp:21-30 | every player is filed under their own cell, in exact inverse tables |
| SpatialGrid.SpatialGrid.Update | core/src/spatial_grid.cpp:32-44 | the id moves to its new cell and the tables stay exact inverses without empty cells |
| SpatialGrid.SpatialGrid.Remove | core/src/spatial_grid.cpp:46-52 | the id is gone from both tables, which stay exact inverses |
| SpatialGrid.SpatialGrid.QueryNeighbours | core/src/spatial_grid.cpp:54-70 | returns, without duplicates, exactly the placed ids of the square of cells in the same dimension, except the asker |
| SpatialGrid.SpatialGrid.QueryColumn | core/src/spatial_grid.cpp:63-69 | the same for one column of cells |
| SpatialGrid.SpatialGrid.QueryCell | core/src/spatial_grid.cpp:64-68 | the same for one cell |
| SpatialGrid.InverseSettles | core/src/spatial_grid.cpp:21-52 | the placement table settles the cells up to order, so a maintained grid equals a rebuilt one |
| SpatialGrid.SwapEraseUnique | core/src/spatial_grid.cpp:17-17 | swap-erase keeps all other ids, each once |
| SpatialGrid.CoversIff | core/src/spatial_grid.cpp:58-64 | the square of cells covers the range if and only if the range is not negative |
| SpatialGrid.NearIsInSpan | core/src/spatial_grid.cpp:58-64 | two positions nearer than the radius are never further apart than the span of cells |
| SpatialGrid.NegativeMisses | core/src/spatial_grid.cpp:58-58 | for a negative radius there are positions within its square that the search misses |
| NearSet.Scan | core/src/engine.cpp:300-309 | one pass with swap-erase drops exactly the stale entries, and finds the speaker and a weakest entry among the rest |
| NearSet.NearestAdmit | core/src/engine.cpp:293-324 | refreshes, takes a free slot, or trades a weakest entry for a louder speaker; one entry per speaker, none older than two ticks, never more than the cap; a younger entry of another stays unless traded for a louder one |
| NearSet.AdmitKeepsTopN | core/src/engine.cpp:311-323 | with fixed volumes and nothing going stale, the set stays a loudest-N of the speakers offered so far, and who is in it is who was admitted |
| NearSet.SettledAdmission | core/src/engine.cpp:311-323 | once everyone was offered, exactly the set's speakers are admitted and the set stays |
| NearSet.AdmittedIff | core/src/engine.cpp:311-323 | a speaker is admitted if and only if already heard, or a slot is free, or louder than a weakest entry, all known before |
| NearSet.OfferAll | core/src/engine.cpp:293-324 | any list of offers keeps the cap and one entry per speaker; when nothing goes stale it is a chain, and a run if each speaker keeps one volume, in the sense of the next rows |
| NearSet.RunKeepsTopN | core/src/engine.cpp:293-324 | the set is a loudest-N of those offered so far in every run |
| NearSet.SettledRun | core/src/engine.cpp:293-324 | after one full round, whatever the order, exactly the same loudest N are forwarded from then on |
| NearSet.TopNUnique | core/src/engine.cpp:293-324 | with distinct volumes there is only one loudest-N |
| NearCap.OfferEffect | core/src/engine.cpp:311-323 | an offer without a trade adds the speaker or refuses; a trade lets in someone new while the set is full |
| NearCap.WithinCapIff | core/src/engine.cpp:293-324 | with nothing going stale, at most N distinct speakers are forwarded in a run of offers if and only if no offer trades a weaker entry away |
| NearCap.RisingAllForwarded | core/src/engine.cpp:319-321 | offers of rising volume are all forwarded, whatever the cap |
| NearCap.TwoThroughOne | core/src/engine.cpp:315-321 | a concrete run in which a cap of one lets two speakers through |
| BusRouter.Key2Halves | core/include/bus_router.h:93-93 | packing a pair of ids loses nothing |
| BusRouter.MixAtPick | core/src/bus_router.cpp:122-130 | the sum over contributors does not depend on the order they are walked in |
| BusRouter.AddInto | core/src/bus_router.cpp:126-128 | adds one frame sample by sample, within the shorter length |
| BusRouter.BusRouter.Gather | core/src/bus_router.cpp:98-110 | exactly the members with a fresh frame, and the longest of their frames |
| BusRouter.BusRouter.MixFor | core/src/bus_router.cpp:119-131 | the pointwise sum of exactly the others not heard in person |
| BusRouter.BusRouter.BusVolume | core/src/bus_router.cpp:151-162 | full gain unless some active filtered bus of the listener outranks this one; then ducked or muted |
| BusRouter.BusRouter.SendBus | core/src/bus_router.cpp:164-182 | each pair of listener and channel numbers its own packets, and only those encoded |
| BusRouter.NumbersJoin | core/src/bus_router.cpp:176-176 | packets that continue the numbers of others continue them all along |
| BusRouter.BusRouter.ServeListener | core/src/bus_router.cpp:115-147 | the listener gets exactly the one right packet, or none, and a speakerphone call exactly when on speaker |
| BusRouter.BusRouter.ServeMembers | core/src/bus_router.cpp:115-148 | exactly the members to be served get a packet, one each, whatever the order |
| BusRouter.BusRouter.MixBurst | core/src/bus_router.cpp:111-148 | all packets and calls of one emission are right |
| BusRouter.BurstByField | core/src/bus_router.cpp:96-162 | in fields: the sources of a packet are exactly the members, other than its listener and those heard in person, with a frame stored at most 60 ms ago; the listener is a member who is not deaf; the gain goes by channels active in the last 60 ms; everyone to be served gets a packet if encoding never fails |
| BusRouter.BusRouter.EmitChannel | core/src/bus_router.cpp:96-148 | one burst, plain from the fields, when a member has a frame at most 60 ms old, nothing otherwise |
| BusRouter.BusRouter.Record | core/src/bus_router.cpp:74-84 | the frame is stored under the pair and the channel marked active, nothing else |
| BusRouter.BusRouter.KeyChannel | core/src/bus_router.cpp:69-92 | recorded always; emitted exactly when not throttled |
| BusRouter.BusRouter.FrameInOrder | core/src/bus_router.cpp:69-92 | for any order of the channels: one right burst for each keyed channel that is due, in that order, each seeing as newly active exactly the channels walked so far |
| BusRouter.BusRouter.OnSpeakerFrame | core/src/bus_router.cpp:57-93 | the same for the order the hash set gives; only the speaker's streams change; no table gains a dead key |
| BusRouter.BusRouter.OnRadioKey | core/src/bus_router.cpp:185-203 | every other listening member of the radio channel gets the beep once at full volume, under the next number |
| KeyMask.OneBit | core/include/bus_router.h:94-94 | a power of two has exactly one bit |
| KeyMask.BitKeysIff | core/src/bus_router.cpp:72-72 | one bit keys exactly the channels with the same remainder by 32 |
| KeyMask.KeysOneIff | core/src/bus_router.cpp:69-72 | a player who keys one filtered channel by its bit keys that one alone if and only if no other filtered channel of theirs has the same remainder by 32 |
| BusRouter.BusRouter.PrunePlayer | core/src/bus_router.cpp:208-217 | exactly the player's entries go, and no table names a dead player or channel |
| BusRouter.BusRouter.PruneChannel | core/src/bus_router.cpp:219-229 | exactly the channel's entries go, and no table names a dead player or channel |
| BusRouter.EraseHigh | core/src/bus_router.cpp:211-216 | erasing while iterating removes exactly the keys of the player |
| BusRouter.EraseLow | core/src/bus_router.cpp:221-226 | erasing while iterating removes exactly the keys of the channel |
| BusRouter.GapIff | core/src/bus_router.cpp:88-90 | the 18 ms gap after an emission is guaranteed if and only if the clock did not read zero |
| BusRouter.EmitsAreSpread | core/src/bus_router.cpp:86-91 | n emissions later is at least 18 n milliseconds later |
| FrameGain.FramePackets | core/src/bus_router.cpp:96-162 | for every burst of a frame and every member: a packet if and only if they listen, the gain is audible and encoding works; it carries the sum of exactly their sources; the channel counts among their active buses; full gain if and only if none active by then outranks it |
| FrameGain.BurstServes | core/src/bus_router.cpp:115-147 | what a member gets of a burst, in terms of the tables as the frame leaves them |
| FrameGain.SeenServes | core/src/bus_router.cpp:115-147 | an emission serves as the final tables would with only the channels walked so far active |
| FrameGain.SceneAgrees | core/src/bus_router.cpp:98-131 | later channels of the same frame change nothing an earlier emission went by but which channels are active |
| FrameGain.OutrankedGrows | core/src/bus_router.cpp:151-160 | the more channels are active, the more a bus is outranked |
| FrameGain.GainSettledIff | core/src/bus_router.cpp:69-91 | the gain is the same in every order of the walk if and only if the channel is outranked before, or not outranked even when all keyed channels are active |
| FrameGain.BothOrders | core/src/bus_router.cpp:69-92 | whenever it is not settled, one order gives the member full gain and another the lowered gain, from the same state and frame |
| FrameGain.FirstFrameUnsettled | core/src/bus_router.cpp:69-92 | a concrete pair of players and channels whose first frame is such a case |
| Talk.SilentOnEighth | core/src/engine.cpp:331-337 | silence is reached exactly at the eighth tick after the last frame, across the wrap of the counter |
| Talk.Push | core/src/engine.cpp:181-185 | an event in turn keeps starts and stops alternating in every lifetime of every player |
| Talk.PushReported | core/src/engine.cpp:181-186 | reporting together with the change of the flag keeps log and flag in agreement |
| Engine.GridMissesNobody | core/src/engine.cpp:202-224 | for a range that is not negative, looking in the neighbouring cells finds everyone the plain rule names |
| Engine.UncappedReachesAll | core/src/engine.cpp:218-235 | without a cap, packets go to exactly the hearers |
| Engine.HeardOnce | core/src/engine.cpp:188-192 | with suppression on, no bus packet of the frame carries the speaker to someone who got the frame directly |
| Engine.CurrentGridIsRebuilt | core/src/engine.cpp:326-332 | in every reachable state the grid is what a rebuild of the placed players gives, up to order in cells |
| Engine.HushedTimely | core/src/engine.cpp:336-341 | after the pass nobody active was silent for the timeout, and those stopped were silent for exactly eight ticks |
| Engine.ControlKeepsTalk | core/src/engine.cpp:24-169 | no control message but the player's own departure touches their talk state |
| Engine.TalksUntilEighthTick | core/src/engine.cpp:181-186 | over any inputs, a player who neither speaks nor leaves counts as talking exactly until the eighth tick |
| Engine.Engine.AdmitNear | core/src/engine.cpp:293-324 | per listener, without touching any other listener's set, and always admitting when there is no cap |
| Engine.Engine.FanOut | core/src/engine.cpp:218-235 | only hearers get packets, each at most one, rightly filled in, and exactly those the cap admits |
| Engine.HearsIff | core/src/engine.cpp:220-224 | a listener may get the speaker if and only if not deaf, not muting them, of the same interior and world, nearer than the range, and with a volume above 0.001 |
| Engine.FanIsPlain | core/src/engine.cpp:218-235 | every packet of a fan-out goes to such a listener, none twice, rightly filled in; without a cap every placed one gets it |
| Engine.Engine.RouteProximity | core/src/engine.cpp:195-236 | every packet goes to someone who by their own record may get it, and says what the frame said; without a cap everyone placed who may gets one; with one, exactly those it admits; the dead send nothing |
| Engine.Engine.RouteSpeakerphone | core/src/engine.cpp:242-288 | a call goes, under the synthetic id and the next number, to those around its holder who by their own record may hear them, are not on the channel, and whom the cap admits |
| Engine.CallReachesBystanders | core/src/engine.cpp:272-287 | in fields: without a cap every placed bystander who may hear the holder gets the call |
| Engine.CallReachesAll | core/src/engine.cpp:260-287 | without a cap a call reaches exactly the bystanders a look at all players finds |
| Engine.CallIsForBystanders | core/src/engine.cpp:272-287 | each packet brings the call to a bystander and never to the holder or a member |
| Engine.Engine.PlayCalls | core/src/engine.cpp:242-288 | all calls of a frame in turn, each to exactly those it is for, numbered without gaps |
| Engine.CallsInTurn | core/src/bus_router.cpp:141-142 | the calls played are those of each burst in turn, none left out and none made up |
| Engine.Engine.MarkTalking | core/src/engine.cpp:181-186 | start is reported exactly when the player was silent, and the tick is stamped |
| Engine.Engine.CarryFrame | core/src/engine.cpp:188-192 | the direct packets to exactly those the cap admits, then the right bursts in the order of the walk, nobody served twice |
| Engine.Engine.OnAudioFrame | core/src/engine.cpp:171-193 | the whole effect of a frame: talk start, direct recipients under the cap, bus bursts and the activity each went by, calls to exactly the bystanders admitted, nobody heard twice, nothing for muted or unknown players |
| Engine.Engine.Tick | core/src/engine.cpp:326-342 | exactly the silent are stopped, each on the eighth tick, and every 1024th tick refiles every player |
| Engine.Engine.Refile | core/src/engine.cpp:332-332 | every registered player is filed under their current cell |
| Engine.Engine.StopSilent | core/src/engine.cpp:336-341 | one stop for each silent player and no other change |
| Engine.Engine.OnPlayerPos | core/src/engine.cpp:30-39 | the record moves and the grid files it under its new cell |
| Engine.Engine.OnRecord | core/src/engine.cpp:40-152 | only the named record changes, as the message says, with overrides clamped to the shouting range |
| Engine.Engine.OnTransmit | core/src/engine.cpp:92-111 | a key transition, and only a transition, is reported once for each radio channel of the player, with one beep each to exactly the members who are neither the operator nor deaf and whose packet encodes |
| Engine.Engine.ReportKeys | core/src/engine.cpp:103-108 | each radio channel of the player once, and for each its beep, in that order, numbered in turn |
| Engine.Engine.BeepOn | core/src/engine.cpp:107-107 | one beep to the channel's other listening members if beeps are on |
| Engine.Engine.OnGone | core/src/engine.cpp:153-166 | exactly the player's entries go from every table, channel, grid cell and mute set; all other entries are kept |
| Engine.Engine.UnmuteAll | core/src/engine.cpp:164-164 | the id is in nobody's mute set |
| Engine.Engine.OnChannel | core/src/engine.cpp:55-91 | the registry changes as the op says; a destroyed channel takes exactly its bus entries along, any other op none |
| Engine.Engine.OnSetting | core/src/engine.cpp:30-152 | a packet about one player or the tuning changes that and, for a position, the placement; no other side table |
| Engine.Engine.OnOperation | core/src/engine.cpp:55-166 | a channel operation or departure changes exactly the records, channels and side tables it should |
| RunLaws.ControlByField | core/src/engine.cpp:24-169 | every message in fields: the record it is about holds exactly what it says, an override no more than the shouting range, and all other fields and records stay |
| RunLaws.RecordAsSaid | core/src/engine.cpp:24-169 | in every run a record holds what the last position, status, key, policy and phone message about the player said since they last left |
| RunLaws.MutesAsSaid | core/src/engine.cpp:138-164 | in every run a listener mutes a target if and only if that is the last word on it since either left |
| RunLaws.MutedAddNothing | core/src/engine.cpp:174-175 | in every run a frame of a player last said to be muted adds no packet, burst or event |
| RunLaws.SpokeAsRun | core/src/bus_router.cpp:69-84 | in every run the stored frames were stored when their speakers last had a frame carried on the channel |
| RunLaws.ActiveAsRun | core/src/bus_router.cpp:84-84 | in every run a channel's activity is the time of the last frame carried on it |
| RunLaws.SilentLeftOut | core/src/bus_router.cpp:103-110 | in every run whoever is mixed into a packet had a frame carried on its channel at most 60 ms before |
| Engine.Engine.OnControl | core/src/engine.cpp:24-169 | every message: the new records, channels, tuning, placement, near sets and bus tables, the reports, and the beeps with their recipients |
| Suppression.MutesLeaveTheBus | core/src/bus_router.cpp:96-148 | the right burst of a channel is the same whoever mutes whom |
| Suppression.MutesLeaveSources | core/src/bus_router.cpp:119-131 | whom a member hears on a bus, whether they listen and at what gain does not depend on mute sets |
| Suppression.DirectIff | core/src/engine.cpp:218-235 | a player gets the direct frame if and only if it is carried, the plain rule names them, and their cap makes room for the speaker, all known before |
| Suppression.HeardEitherWayIff | core/src/bus_router.cpp:123-125 | under suppression a listening member gets a talker directly or as a bus source if and only if the talker is out of earshot, or the frame is carried and the member is placed, does not mute them and has room |
| Suppression.HeardNeitherWay | core/src/engine.cpp:221-221 | a concrete scene: two members in one spot, one muting the other, who is heard neither way |
| Engine.RunSpaced | core/src/bus_router.cpp:88-90 | in every run each emission of a channel was let through after the one before |
| Engine.BusRate | core/src/bus_router.cpp:86-91 | in every run under a positive, nondecreasing clock, a channel that is not destroyed is emitted at most span / 18 + 1 times in any span of milliseconds, however many members key it |
| Engine.Drive | core/src/engine.cpp:24-342 | every run from start-up: no side table names a dead player or channel, the grid files exactly those placed by the inputs under their current cell, membership is two-way, starts and stops alternate and agree with the flags, records are as the inputs say, exactly the buses due are emitted on each input, packets account for the last numbers, the muted add nothing to the output, and nobody silent for over 60 ms is mixed in |
| BusNumbers.NumberedInTurn | core/src/bus_router.cpp:176-226 | in every run the packets of each listener on each channel, beeps included, are numbered 1, 2, 3 and so on modulo 2^16 since the listener last left or the channel was last destroyed |
| BusNumbers.TablesCount | core/src/bus_router.cpp:176-226 | and the table of last numbers holds how far they got |
| Relay.PackAddrInjective | relay/src/relay.cpp:14-17 | packing an address loses nothing |
| Relay.Relay.BindToken | relay/src/relay.cpp:103-113 | the new token replaces any earlier one of the player |
| Relay.Relay.Search | relay/src/relay.cpp:211-224 | the first unexpired entry with the presented token |
| Relay.Relay.HandleHandshake | relay/src/relay.cpp:170-294 | answer and new state for every datagram: too short, wrong version, full, bad token, wrong address, failed exchange, accepted |
| Relay.Relay.HandleEncrypted | relay/src/relay.cpp:296-327 | the session's record and the answer after any datagram |
| RelayLaws.EncryptedByField | relay/src/relay.cpp:298-303 | a refused or empty datagram moves nothing but the mark; one that opens refreshes the clock and is acted on |
| RelayLaws.PlainByField | relay/src/relay.cpp:305-326 | voice, ping and bye, byte by byte, with all they change |
| RelayLaws.EmitByField | relay/src/relay.cpp:340-344 | one counter is spent, and what would exceed 1528 bytes is not sent |
| RelayLaws.HandshakeByField | relay/src/relay.cpp:170-289 | every way a handshake can go, in the order of the checks, byte by byte, with all it changes |
| RelayLaws.CleanupByField | relay/src/relay.cpp:364-378 | exactly the unexpired tokens, the sessions heard from in 15 seconds and their addresses stay |
| RelayLaws.BindByField | relay/src/relay.cpp:105-113 | the tokens of others and this one, the player's only |
| SessionClock.StepMoves | relay/src/relay.cpp:258-302 | one step moves the clock of a session exactly when its player is heard from |
| SessionClock.ClockIsLastHeard | relay/src/relay.cpp:258-302 | in every run the clock of a live session is the time of its handshake or of its last datagram that opened to something, whichever came later |
| SessionClock.EndsAfterSilence | relay/src/relay.cpp:370-377 | after any run a cleanup ends exactly the sessions of players last heard from more than 15 seconds before |
| SessionClock.VoiceKeepsAlive | relay/src/relay.cpp:302-371 | a session heard from outlives a cleanup up to 15 seconds later |
| Relay.Relay.HandlePlain | relay/src/relay.cpp:305-326 | voice, ping and bye, with their length checks |
| Relay.Relay.EmitToPlayer | relay/src/relay.cpp:336-345 | a counter is spent and the packet sealed only for an established session |
| Relay.Relay.OnAudioSocket | relay/src/relay.cpp:138-168 | a datagram goes to the session of its address, and to the handshake otherwise |
| Relay.Relay.CleanupPass | relay/src/relay.cpp:356-380 | expired tokens and idle sessions go with their addresses, and each timed-out player is reported exactly once |
| Relay.Relay.SweepTokens | relay/src/relay.cpp:366-368 | exactly the expired tokens go |
| Relay.Relay.SweepSessions | relay/src/relay.cpp:370-378 | exactly the idle sessions go, each listed once |
| Relay.AddressesDistinct | relay/src/relay.cpp:156-166 | no two live sessions share an address |
| Relay.DatagramKeepsSessions | relay/src/relay.cpp:138-327 | any datagram keeps sessions within the limit, under their own id, and indexed by their address |
| Relay.CleanupKeepsSessions | relay/src/relay.cpp:370-377 | cleanup keeps that too and leaves no session idle over 15 s |
| Relay.AcknowledgedIff | relay/src/relay.cpp:156-289 | a datagram is acknowledged, to the player of the matching token, if and only if it is a current request with a redeemable token, there is room, the exchange works, and the index does not lead its address, by a stale entry or not, to a live session |
| Relay.OldAddressStaysOwned | relay/src/relay.cpp:271-272 | after a new handshake from elsewhere the old address still leads to the new session |
| AddressIndex.RedeemExactIff | relay/src/relay.cpp:254-272 | a successful handshake keeps the index exact if and only if the player had no live session, which then was at another address |
| AddressIndex.PlainKeepsExact | relay/src/relay.cpp:305-326 | voice, ping, bye and anything else keep the index exact |
| AddressIndex.DropKeepsExact | relay/src/relay.cpp:370-378 | cleanup keeps the index exact |
| AddressIndex.ReplacesIff | relay/src/relay.cpp:156-289 | an acceptable request whose token is that of a player with a live session is what gets an Ack to such a player |
| AddressIndex.DatagramExactIff | relay/src/relay.cpp:138-327 | any datagram keeps the index exact if and only if it is not such a request |
| AddressIndex.StepExactIff | relay/src/relay.cpp:90-381 | the same for binds, datagrams, pushes and cleanup |
| AddressIndex.AlwaysExactIff | relay/src/relay.cpp:90-381 | the index is exact in every state of a run if and only if no Ack of the run replaced a live session |
| AddressIndex.NoAckForOwned | relay/src/relay.cpp:156-166 | while an address leads to a live session no request from it is acknowledged |
| AddressIndex.StaleStays | relay/src/relay.cpp:271-378 | a stale entry outlives every step but an Ack to that very address, which is not given while it leads to a live session |
| TokenHistory.RedeemKeeps | relay/src/relay.cpp:211-255 | redeeming spends the token bound last for its player and no other |
| TokenHistory.RunKeeps | relay/src/relay.cpp:103-113 | in every run: one pending token per player, each the last bound and not yet acknowledged |
| TokenHistory.AtMostOneAck | relay/src/relay.cpp:254-255 | with distinct minted tokens no token is acknowledged twice in any run |
| TokenHistory.AcksAreEarned | relay/src/relay.cpp:211-289 | every Ack names the player the token was bound to, with a token unexpired and the latest of that player; every session was opened by such an Ack |
| TokenHistory.ReachableSessions | relay/src/relay.cpp:201-209 | in every reachable state: sessions within the limit, indexed, at distinct addresses |
| TokenHistory.Serve | relay/src/relay.cpp:90-381 | the server object, fed any run of events, ends where the run of the model ends and keeps its invariants |
| NetSession.RequestReadsBack | client/src/net_session.cpp:151-156 | the relay reads from the request what the client wrote |
| NetSession.VoiceReadsBack | client/src/net_session.cpp:215-223 | the engine is handed the number, flags and frame the client packed, and such a packet always fits |
| NetSession.HandshakePairs | client/src/net_session.cpp:244-268 | an acknowledged handshake leaves both ends with crosswise equal keys and fresh counters, for the player the token was bound to |
| NetSession.AckIff | relay/src/relay.cpp:201-283 | the client's request is acknowledged if and only if there is room, the exchange works, and the first matching unexpired token may come from this address |
| NetSession.UplinkIsChannel | client/src/net_session.cpp:207-213 | client sending and relay receiving are a sealed channel, and the voices are those of the accepted packets |
| NetSession.DownlinkIsChannel | client/src/net_session.cpp:275-277 | relay sending and client receiving are a sealed channel |
| NetSession.ClientSession.Connect | client/src/net_session.cpp:148-170 | a new key pair, a fresh counter, and the request sent |
| NetSession.ClientSession.SendPacket | client/src/net_session.cpp:207-213 | a counter is spent when established, and the datagram sent if it fits |
| RelayLaws.SendByField | client/src/net_session.cpp:207-213 | in a session one counter is spent for each packet, and what would exceed 1528 bytes is not sent |
| NetSession.ClientSession.SendAudio | client/src/net_session.cpp:215-223 | oversized frames and frames outside a session go nowhere; any other is always sent |
| NetSession.ClientSession.Receive | client/src/net_session.cpp:225-277 | handshake replies before, sealed packets after |
| RelayLaws.ReplyByField | client/src/net_session.cpp:234-268 | before a session: a refusal, an Ack with all it sets, or nothing, byte by byte |
| RelayLaws.ConnectByField | client/src/net_session.cpp:148-164 | a new pair and a counter of one, and the 69 bytes of the request |
| SessionRun.StepKeeps | relay/src/relay.cpp:138-345 | whatever happens within a session, both ends keep the keys and counters of the two channels |
| SessionRun.RunKeeps | client/src/net_session.cpp:207-277 | the same in every run within one session |
| SessionRun.VoicesInOrder | relay/src/relay.cpp:296-313 | over any network short of forged tags, the voices handed to the engine as a player's are an in-order, duplicate-free subsequence of those the client sealed |
| SessionRun.HeardInOrder | client/src/net_session.cpp:275-277 | and what the client hands on is an in-order, duplicate-free subsequence of what the relay sealed for it |

## Left out

- User interface, overlay, audio devices, hooks, sockets, threads and logging.
- Byte layouts of control packets: the engine takes them parsed, with short or unknown ones as `Other`.
- Player names (`sendName` and the roster) and the policy limits inside an Ack, which are carried as nine unread bytes.
- The sound of filters, drive, static, garble and limiter: `BusRouter.BusRouter.Colour` keeps only the frame length, and a packet's `mix` is the sum before garbling and limiting.
- The squelch tone's samples: only its length, its listeners and its volume are stated.
- Opus and RNNoise themselves: success of encoding is a parameter, decoding hands in the frame's samples.
- Internals of the cipher and the key exchange; that tags are not forged is assumed where a receiver is concerned.
- Floating-point rounding and the overflow of 32-bit cell coordinates.
- Wrap-around of the 64-bit packet counter: runs are shorter than that.
- Datagrams longer than the relay's 1464-byte receive buffer arrive cut off; the model receives them whole.
- The push-to-talk and voice-activity gate of the capture loop, and Opus packets above 1276 bytes at the playback side.
- `removeSpeaker` and the per-speaker volume and mute of playback; concealment of missing frames.
- Pings sent by the client's timer and its lapse after eight seconds of silence: `SessionRun` is about one established session.
- Where a run's speakerphone packets fall among the bus packets of the same frame: the model sends them after those, the source in between.
- The configuration files, their defaults and the script bindings.
- RestartPolicy.Policy.OnCrash: counts and times are unbounded naturals and the clock does not go back; the crash counter's 32 bits are not modelled.
- Watchdog.Watch: whether the process is alive, whether a spawn succeeds and when shutdown is asked for are inputs.
- Engine.Engine.RouteProximity: about players placed in the grid; a registered player without a position is first placed by a position push or the 1024th tick.
- Engine.Engine.OnTransmit: the order in which a player's radio channels are reported is not determined.
- NearSet.RunKeepsTopN: about runs in which no entry goes stale and each speaker keeps one volume below 1e9; without that, the cap, the uniqueness and the freshness still hold by `NearSet.NearestAdmit`.
- Relay.Relay.HandleHandshake: key pairs are handed in.
- Proximity.ResultInBounds: asks that square roots are not negative and that powers of fractions with exponents that are not negative are fractions.
- Proximity.FractionIff: also asks that opposite exponents give reciprocal powers; occluded volumes are those times the configured attenuation.
- Suppression.HeardEitherWayIff: about ranges that are not negative; for others see `SpatialGrid.CoversIff`.
