# drand: the beacon chain and its surroundings, in Dafny

drand nodes produce a chain of random beacons. Each beacon carries a threshold signature over its
round number and the signature before it. This project models the parts of drand whose guarantees
are about every interleaving and every run, and proves those guarantees.

- **Beacon chain.** `PartialCache` and `CacheImpl` hold the aggregator's bounded cache, as functions
  and as the mutable object. `Stores` has the bolt bucket with its byte-ordered cursor and the
  append-only store. `Node` is one node as a step system: aggregator loop, sync goroutine, callback
  workers, tick loop, catch-up goroutines. `NodeRuns` proves what holds along every run of it,
  `Network` what holds of all nodes together. `Handler` is the same node as objects whose methods
  are proved to be runs of the step system. `Backpressure` has the bounded channels around the
  callbacks, and when they deadlock. `Sync` is following a peer and serving one.
- **Echo broadcast** of the DKG: `Echo` (delivery, agreement, completeness) and `EchoBounds` (cost, rest, losses).
- **Time**: `RoundTime` has the rounds and their times, with the `uint64` and `int64` steps written out.
- **Setup**: `Group` (key order, hash, wire form), `Setup` (collecting keys, genesis and transition
  times), `PushDkg` (when the leader goes on).
- **Clients**: `TrustWalk`, `Latency`, `WatchScheduler`; and `Waiters`, the blocked requests of the
  HTTP server.

`Bytes`, `Chain` and `Collections` hold the shared vocabulary.

## How it is modelled

Cryptography is symbolic. A `Scheme` is a hash and verification functions; what a theorem needs of it
is in its `requires`: at most one valid signature per message (`UniqueSignatures`), a collision-free
hash (`CollisionFree`), no partial of a share that did not sign (`PacketBacked`), no streamed full
signature without a threshold of shares that did (`Producible`), and one public key across resharings
(`SameKey`).

A run is a sequence of states and steps; each step is one indivisible piece of one goroutine. Channels
of the node are unbounded and callback workers take jobs in any order, so the runs of the program are
among the runs of the model. Objects that the program updates in place are classes, and each method
states the whole new state, either outright or by a function of the old state.

Go maps are ranged over by picking the next key freely. The answers of peers, sources, the network,
the clock and the signature library are parameters or free choices. Periods are whole seconds, as on
the wire, and the floating-point floor and logarithm of `chain/time.go` are exact integers.

## What the code does not keep

Where a property fails, the code is modelled as it is, with the input that shows it and the exact
condition under which the property holds.

- An eviction in the partial cache lists the new round twice (`EvictionListsTwice`,
  `EvictionHappens`). The lists are exact along a run if and only if the run evicts nothing
  (`RunExactIff`).
- The append-only store breaks its chain exactly when the round number wraps (`AppendChainIff`).
- A tick left in its one-slot channel may be handled in a later round and sign before its time
  (`StaleTickSignsEarly`, `StaleTickIff`).
- A request parked across a stream reset may be answered with another round (`ResetAnswersWrongRound`,
  `RightReplyIff`).
- A setup for one node never completes (`SoloNeverReady`).
- A preemption that waits in its one-slot channel when the last key of a setup is taken blocks the setup
  for good (`PreemptionBlocks`). A group is emitted exactly if enough keys were taken before any
  preemption was sent (`EmittedIff`).
- A fresh setup with a period of zero is accepted, and divides by it once it is complete (`RunSetup`).
- `MarkPassive` moves an entry to the slowest time without sorting, so a passive client may rank before a
  faster one until the next update (`MarkedFirst`). It does not exactly if the clients marked since the
  last update stood at the tail (`RankTheorem`).
- The documentation of `MarkPassive` says that a passive client whose watch ended is not re-opened; the
  code drops it from the protected list without marking it failed, so it may be (`PassiveReopens`).
  `ReopenedIff` says exactly when.
- The slow path of the trust walk pairs round 1 with the group hash. A client without a point of trust
  below a round above 1 therefore refuses the genuine result, even from honest sources
  (`NewClientRefuses`), and if the group was compromised and signed a round 2 on top of the group hash, it
  accepts that one although it verifies strictly (`ForgedRoundTwoAccepted`). It accepts a round 2 exactly
  if it is signed that way, and any other round above 1 only if some round 2 is (`Clients.Verify`). Above
  a genuine point of trust only the genuine result is accepted, whatever the group signed.
- A watch that `closeSlowest` cancelled reports its end later. If its client was opened again meanwhile,
  the report closes the new watch and makes the client back off (`LateReportHarms`, `LateReportIff`).
- `start` of the HTTP server holds the lock while it waits for a signal that the watcher sends without
  waiting for a receiver. A signal sent too early is lost, and every request then waits
  (`SignalLost`, `StartedIff`).
- The echo broadcast hands packets to the application under its lock, over a channel of n places per kind,
  and blocks when it is full (`EchoBroadcast.BroadcastDKG`). It never does while no more packets of a kind
  are known than there are nodes (`NeverBlocks`).
- `callbackStore.Put` holds its lock while it waits for a place in the job queue, and only the aggregator
  empties the channel the workers wait for. An aggregator that keeps aggregating without taking notices
  deadlocks itself (`DeadlockHappens`). `DeadlockIff` names the deadlocked states, `NoDeadlock` a bound
  that excludes them, and `DeadlockedExactly` the exact count for the aggregator's callback alone.

## Model

| member | source | states |
|---|---|---|
| `Bytes.RoundToBytesInjective` | chain/store.go:42-46 | different rounds have different keys |
| `Bytes.RoundOrder` | chain/store.go:42-46 | the byte order of the keys is the numeric order of the rounds, both ways |
| `RoundTime.TimeOfRoundExact` | chain/time.go:18-38 | for every uint64 round, whole-second period and genesis up to 2^33: no step wraps, and the result is the exact round time or the error value |
| `RoundTime.TimeOfRoundMonotone` | chain/time.go:18-38 | round times never decrease, errors included |
| `RoundTime.NextRoundExact` | chain/time.go:41-63 | in range, next and current round are the exact integer quotient, and nothing wraps |
| `RoundTime.RoundClock` | chain/time.go:18-63 | a round's time has come if and only if the round is at most the current one, for every round number |
| `RoundTime.NextRoundTime` | chain/time.go:52-63 | the announced time is the time of the announced round |
| `RoundTime.CurrentRoundBrackets` | chain/time.go:41-63 | the clock lies between the times of the current and the next round |
| `RoundTime.CurrentRoundOfTime` | chain/time.go:18-47 | CurrentRound inverts TimeOfRound for every round from 1 on that is in range |
| `RoundTime.CurrentRoundMonotone` | chain/time.go:41-47 | the current round never goes back, also across the genesis time |
| `Chain.MessageInjective` | chain/beacon.go:87-92 | a signed message determines its round and its previous signature, of any length |
| `Chain.ChainsAgree` | chain/beacon.go:67-92 | two verified chains of one genesis agree on every round both hold |
| `Chain.ChainsArePrefixes` | chain/beacon.go:67-92 | of two verified chains of one genesis, the shorter is a prefix of the longer |
| `PartialCache.RoundIdInjective` | chain/beacon/cache.go:32-37 | an identifier determines its round and previous signature |
| `PartialCache.RunWellFormed` | chain/beacon/cache.go:40-110 | over every sequence of appends and flushes: cached rounds are non-empty and filed under their own identifier, and every cached partial is on its signer's list |
| `PartialCache.RunExactIff` | chain/beacon/cache.go:40-110 | the lists are duplicate-free and the exact inverse of the cached partials all along a run if and only if the run evicts nothing |
| `PartialCache.AppendExactIff` | chain/beacon/cache.go:40-51 | one append keeps the lists exact if and only if it does not evict |
| `PartialCache.EvictionListsTwice` | chain/beacon/cache.go:87-110 | an eviction leaves the new identifier twice at the end of the signer's list |
| `PartialCache.EvictionHappens` | chain/beacon/cache.go:87-110 | 101 partials of one share over different previous signatures evict and lose exactness |
| `PartialCache.AppendMeaning` | chain/beacon/cache.go:40-51 | exactly who holds a partial in which round after an append, and with which value; on an eviction exactly the pair of the oldest round and the signer goes |
| `PartialCache.AppendLists` | chain/beacon/cache.go:40-51 | without an eviction the list of the signer grows by the round exactly if the signer is new to it, and no other list changes |
| `PartialCache.AppendSigners` | chain/beacon/cache.go:40-51 | after an append the packet's round is cached with exactly the signers before and the packet's own, unless the packet cannot be cached |
| `PartialCache.AppendValid` | chain/beacon/cache.go:40-51 | appending a valid partial keeps every cached partial valid for the round it is filed under |
| `PartialCache.FlushMeaning` | chain/beacon/cache.go:54-78 | a flush leaves exactly the rounds above, untouched, and takes exactly the flushed identifiers off the lists of the signers that took part |
| `PartialCache.FlushExact` | chain/beacon/cache.go:54-78 | a flush keeps exact lists exact |
| `CacheImpl.FilterInPlace` | chain/beacon/cache.go:64-70 | the filter that writes into the slice it reads keeps exactly the other identifiers, in order |
| `CacheImpl.PartialCache.constructor` | chain/beacon/cache.go:24-30 | the cache starts empty |
| `CacheImpl.PartialCache.Append` | chain/beacon/cache.go:40-51 | signer by signer: the packet's signer joins the packet's round, with the packet's partial if it had none there; everybody else and every value held stays, but for the signer's oldest entry on an eviction; nothing changes exactly if that entry is gone |
| `CacheImpl.PartialCache.GetCache` | chain/beacon/cache.go:87-110 | the round to add to: the cached one, a new one, or none when the entry to evict is gone; the eviction included |
| `CacheImpl.PartialCache.FlushRounds` | chain/beacon/cache.go:54-78 | for every map iteration order the result is the one function Flush: exactly the rounds above remain, untouched |
| `CacheImpl.PartialCache.StrikeSigners` | chain/beacon/cache.go:63-76 | the inner loop strikes the identifier from exactly the given signers' lists, in any order |
| `CacheImpl.PartialCache.GetRoundCache` | chain/beacon/cache.go:80-83 | finds exactly the cached round of this number and previous signature |
| `Stores.BoltStore.constructor` | chain/boltdb/store.go:28-46 | the store opens with the beacons on disk, or none |
| `Stores.BoltStore.Put` | chain/boltdb/store.go:69-83 | the round is bound to the beacon and nothing else changes |
| `Stores.BoltStore.Get` | chain/boltdb/store.go:110-129 | finds a beacon exactly if its round is stored |
| `Stores.BoltStore.Last` | chain/boltdb/store.go:90-107 | the last key in byte order is the greatest round |
| `Stores.BoltStore.Del` | chain/boltdb/store.go:131-136 | just this round is removed |
| `Stores.BoltCursor.Seek` | chain/boltdb/store.go:186-196 | moves to the smallest stored round at or above the one asked for |
| `Stores.BoltCursor.Next` | chain/boltdb/store.go:174-184 | moves to the smallest stored round above the current one |
| `Stores.AppendKeepsChain` | chain/beacon/store.go:40-54 | an accepted beacon extends the chain without gap, broken link or overwriting |
| `Stores.AppendChainIff` | chain/beacon/store.go:40-54 | an accepted beacon keeps the chain if and only if the round does not wrap |
| `Stores.AppendStore.constructor` | chain/beacon/store.go:32-38 | the remembered beacon is the end of the stored chain |
| `Stores.AppendStore.Put` | chain/beacon/store.go:40-54 | accepts exactly the next linked beacon, changes nothing otherwise, and keeps the chain |
| `Stores.InsertGenesis` | chain/beacon/node.go:68-71 | an empty store becomes a chain, and a chain of the same genesis is left as it was |
| `Node.StepKeepsChain` | chain/beacon/chain.go:91-191 | every action of every goroutine keeps the store a verified chain, overwrites nothing, and leaves every beacon in flight a stored one |
| `Node.QuietStep` | chain/beacon/store.go:115-165 | actions other than the two writes leave the database alone and put only stored beacons in flight |
| `Node.AggregatedIff` | chain/beacon/chain.go:105-153 | a beacon is handed on exactly if the partial is one to four rounds ahead, can be cached, and its signers with those cached for its round and previous signature reach the threshold, with a valid recovered signature; one fewer and there is none. It is that of the partial |
| `Node.PartialStores` | chain/beacon/chain.go:105-195 | taking a partial binds exactly the completed beacon in the database if it is the next linked one after lastBeacon and the store, and leaves the database alone otherwise |
| `NodeRuns.ChainTheorem` | chain/beacon/chain.go:91-191 | in every reachable state under every interleaving the store holds exactly rounds 0..last, linked and verified, and lastBeacon is one of them |
| `NodeRuns.NothingOverwritten` | chain/beacon/store.go:40-54 | a stored round is never changed or lost along a run |
| `NodeRuns.TryAppendTheorem` | chain/beacon/chain.go:105-153 | every beacon passed to tryAppend was recovered from cached valid partials of at least threshold distinct shares over its own round and previous signature, and lies one to four rounds ahead |
| `NodeRuns.SwitchTheorem` | chain/beacon/node.go:193-212 | for every callback order the share is switched only to a registered group, once that group's target round is stored |
| `Network.AgreementTheorem` | chain/beacon.go:67-92 | in every reachable state of the network any two stores agree where both hold a round, and one is a prefix of the other, for any faulty shares and any resharings |
| `Network.AggregatedProducible` | chain/beacon/chain.go:105-153 | an aggregated beacon was contributed to by a threshold of distinct shares, given that partials cannot be forged |
| `Network.TimingTheorem` | chain/beacon/node.go:215-308 | with one group, fewer than a threshold of faulty shares and ticks that meet the condition of StaleTickIff, no honest node signs or stores round r before its time, catch-up included |
| `Network.TickSignsDue` | chain/beacon/node.go:221-228 | a tick handled within its round meets that condition and signs a round that is due |
| `Network.CatchupSignsDue` | chain/beacon/node.go:243-257 | a catch-up goroutine signs a round no later than the tick it started under |
| `Network.StaleTickIff` | chain/beacon/node.go:266-280 | a late tick signs a due round if and only if it is the tick of the last stored round or that round lies before the current one |
| `Network.StaleTickSignsEarly` | chain/beacon/node.go:221-228 | the tick of round 1 handled in round 2 signs round 3 early |
| `Handler.ReachesKeepsChain` | chain/beacon/chain.go:91-191 | whatever the objects do is a run of the step system, which keeps the chain and overwrites nothing |
| `Handler.Handler.constructor` | chain/beacon/chain.go:40-97 | the node starts in the initial state of the step system |
| `Handler.Handler.ProcessPartialBeacon` | chain/beacon/node.go:92-137 | a partial is queued exactly if its round is at most the next one, it verifies and it is not our own, and refused exactly if one of the first two fails; the queue grows by it only then |
| `Handler.Handler.OnStored` | chain/beacon/chain.go:102-104 | a notice becomes lastBeacon, and exactly the rounds above it stay cached |
| `Handler.Handler.Aggregate` | chain/beacon/chain.go:105-153 | hands on the beacon of the partial exactly if the partial completes a threshold with a valid recovered signature, one to four rounds ahead; the cache then holds later rounds only |
| `Handler.Handler.Dispatch` | chain/beacon/store.go:119-128 | one job per registered callback, in any order, as a run of the step system |
| `Handler.Handler.OnPartial` | chain/beacon/chain.go:105-195 | the whole turn is a run of the step system: the completed beacon is stored, becomes lastBeacon and goes to every callback exactly if it is next and linked, and a sync to its round starts exactly if it is further ahead |
| `Handler.Handler.Land` | chain/beacon/chain.go:156-195 | tryAppend alone, for any recovered beacon |
| `Handler.Handler.StoreSynced` | chain/beacon/sync.go:100-119 | a streamed beacon is stored exactly if it verifies and is the next linked one, and then goes to every callback; the turn is a run of the step system |
| `Handler.TurnsAreSteps` | chain/beacon/node.go:215-264 | every other turn of the objects is the step of the system it is named after |
| `Handler.Handler.RunWorker` | chain/beacon/store.go:156-165 | any queued job may run, once: the aggregator is told, or the share is switched exactly if the beacon is of the target round or later |
| `Handler.Handler.AddCallback` | chain/beacon/store.go:133-137 | exactly this callback is set |
| `Handler.Handler.RemoveCallback` | chain/beacon/store.go:139-143 | exactly this callback goes |
| `Handler.Handler.SendTick` | chain/beacon/ticker.go:88-109 | the current round enters the one-slot channel, or is dropped if the slot is full |
| `Handler.Handler.TransitionNewGroup` | chain/beacon/node.go:193-212 | refused unless the transition time is a round time; if it is the time of round r, the callback waits for round r-1 and nothing else changes |
| `Handler.TargetOfTransition` | chain/beacon/node.go:193-204 | the time of round r is accepted, and its target is r-1 |
| `Handler.SwitchWaits` | chain/beacon/node.go:193-212 | in every run a node told to switch at the time of round r has the new group only once round r-1 is stored |
| `Handler.SwitchHappens` | chain/beacon/node.go:205-211 | in every run a worker that runs the transition job switches exactly if its beacon is of round r-1 or later |
| `Handler.Handler.BroadcastNextPartial` | chain/beacon/node.go:266-290 | signs the round after the given beacon, or the same round again if the tick is that of the beacon |
| `Handler.Handler.OnTick` | chain/beacon/node.go:221-242 | signs a valid own partial of the round after the last stored beacon, or of that round again if it is the current one, queues it for the aggregator, and starts a sync exactly if there is a gap |
| `Handler.Handler.OnAppended` | chain/beacon/node.go:243-258 | exactly one catch-up upon the beacon starts if it is behind the current round, and none otherwise |
| `Handler.Handler.OnWoken` | chain/beacon/node.go:253-256 | the catch-up goroutine signs a valid own partial upon the beacon it was given |
| `Backpressure.Conservation` | chain/beacon/store.go:115-165 | in every run the notices on the way to the aggregator are the beacons put less those drained |
| `Backpressure.DeadlockIff` | chain/beacon/store.go:115-130 | the deadlocked states: a put with the lock and a full queue, all workers and the aggregator's channel full, and the aggregator itself in a put |
| `Backpressure.NoDeadlock` | chain/beacon/chain.go:55-67 | no deadlock while fewer beacons than channel places and workers have been put and not drained |
| `Backpressure.DeadlockedExactly` | chain/beacon/chain.go:55-67 | with the aggregator's callback alone, a run has deadlocked if and only if one more beacon is undrained than queue, workers and channel hold, and the aggregator is in a put |
| `Backpressure.DeadlockHappens` | chain/beacon/chain.go:99-160 | a run that deadlocks, for every channel length and number of workers |
| `Sync.AbsorbSafe` | chain/beacon/sync.go:83-131 | for an arbitrary stream the store only grows, by verified links, and success means that the wanted round became the last one |
| `Sync.AbsorbHonest` | chain/beacon/sync.go:83-131 | an honest peer reaching the wanted round makes the store equal to its own up to there |
| `Sync.AbsorbExact` | chain/beacon/sync.go:100-119 | of any stream exactly the longest beginning of verified links is stored, up to the wanted round |
| `Sync.FollowIff` | chain/beacon/sync.go:74-79 | following succeeds exactly if some stream reaches the wanted round from the store its predecessors left, and the store is as the first such stream leaves it; otherwise every stream was absorbed in order |
| `Sync.FollowHonest` | chain/beacon/sync.go:57-131 | if one of the peers, in whatever order and whatever the others send, is honest and reaches the wanted round, following succeeds and the store is that peer's chain up to there |
| `Sync.ServeChain` | chain/beacon/sync.go:133-160 | refuses exactly rounds beyond the end, and otherwise streams exactly the stored rounds in order |
| `Sync.ReadFrom` | chain/beacon/sync.go:149-156 | the cursor loop reads every round from the given one to the end |
| `Sync.Syncer.constructor` | chain/beacon/sync.go:42-49 | a new syncer is not following |
| `Sync.Syncer.TryNode` | chain/beacon/sync.go:83-131 | the object does what Absorb says; true only once the wanted round is stored |
| `Sync.Syncer.Receive` | chain/beacon/sync.go:100-119 | the receive loop: verify, append, stop at the wanted round or the first refusal |
| `Sync.Syncer.Follow` | chain/beacon/sync.go:57-81 | refused without effect while following; else true exactly if some stream reaches the wanted round from the store its predecessors left, and if none does the store is what all of them leave |
| `Sync.Syncer.TryAll` | chain/beacon/sync.go:74-79 | the loop over the peers: the next one is tried exactly if the one before did not get there |
| `Sync.SyncFromPeer` | chain/beacon/sync.go:83-160 | server and client end to end: the local store ends equal to the peer's prefix |
| `Echo.EchoBroadcast.constructor` | core/broadcast.go:68-78 | starts with no hashes, empty channels for the application and empty queues for everyone else |
| `Echo.EchoBroadcast.HandOver` | core/broadcast.go:135-146 | a packet goes to the channel of its kind exactly if there is room |
| `Echo.EchoBroadcast.Exists` | core/broadcast.go:212-219 | membership in the hash list |
| `Echo.EchoBroadcast.Put` | core/broadcast.go:203-210 | adds a hash once |
| `Echo.EchoBroadcast.Broadcast` | core/broadcast.go:261-265 | every queue with room takes the packet, full ones drop it, nothing else changes |
| `Echo.EchoBroadcast.PushOwn` | core/broadcast.go:80-105 | an own bundle is delivered locally, remembered and sent past the queues, or waits for room first |
| `Echo.EchoBroadcast.BroadcastDKG` | core/broadcast.go:107-146 | a packet is remembered and echoed exactly if new and valid, refused exactly if neither known nor valid, and blocks exactly if it is new and its channel is full |
| `Echo.DeliveredOnce` | core/broadcast.go:107-171 | in every reachable state no node delivered a packet twice, and its hashes are exactly those delivered |
| `Echo.AgreementTheorem` | core/broadcast.go:107-171 | at rest with nothing lost all nodes hold the same hashes |
| `Echo.CompletenessTheorem` | core/broadcast.go:107-171 | at rest with nothing lost every node has delivered exactly the valid packets that entered the network anywhere |
| `EchoBounds.EmittedAnew` | core/broadcast.go:107-171 | no step of any reachable state sends a letter that was sent before |
| `EchoBounds.CostTheorem` | core/broadcast.go:152-171 | the sends of a packet, summed over all steps of a run, are at most n(n-1) |
| `EchoBounds.QuiescenceTheorem` | core/broadcast.go:107-171 | from any reachable state at most 2n(n-1) steps per known packet can follow unless new packets enter, and one can as long as the network is not at rest |
| `EchoBounds.NeverBlocks` | core/broadcast.go:68-78 | while no more packets of a kind are known than nodes, a new one finds room in the application's channel even if nothing is read |
| `EchoBounds.NothingLost` | core/broadcast.go:229-234 | from any state of rest on, no queue overflows while no more packets enter than it has places |
| `EchoBounds.FloodTheorem` | core/broadcast.go:203-273 | a phase from rest to rest, in which at most a queue's worth of packets enter, ends with the same hashes everywhere, and with every node having delivered exactly the valid packets ever pushed or injected |
| `Waiters.SendTheorem` | http/server.go:102-148 | in every interleaving each channel is sent to at most once, and every send goes to an open channel with a free slot |
| `Waiters.ReplyTheorem` | http/server.go:180-218 | a request not parked across a reset gets its round's bytes or the empty reply |
| `Waiters.RightReplyIff` | http/server.go:125-140 | a parked request is answered rightly if and only if the stream was not reset or the new round happens to be its own |
| `Waiters.ReplyExactly` | http/server.go:125-138 | on an unbroken stream a parked request is sent the bytes it wants exactly if their round arrives, and the empty reply exactly if it was skipped; after a reset whatever arrives |
| `Waiters.AnsweredTheorem` | http/server.go:125-218 | in every interleaving a parked request that neither gives up nor sees a reset leaves with the next item of the stream if that is the round it wants, and with the empty reply otherwise |
| `Waiters.ResetAnswersWrongRound` | http/server.go:114-123 | a run in which a request for round 6 gets round 9 |
| `Waiters.StepKeepsInv` | http/server.go:102-218 | every critical section keeps the list duplicate-free, its channels open and unused, and the next round the wanted one |
| `Waiters.StartedIff` | http/server.go:93-110 | start releases the lock exactly if a signal comes after it began to wait |
| `Waiters.SignalLost` | http/server.go:93-110 | a signal sent before that leaves the lock held |
| `Waiters.Handler.constructor` | http/server.go:35-65 | no round seen and nobody waiting |
| `Waiters.Handler.OnNext` | http/server.go:125-140 | every waiter gets the round's bytes if it wants that round or the stream was reset since it was parked, and the empty reply otherwise; the list is emptied and nobody else is touched |
| `Waiters.Handler.SendToAll` | http/server.go:134-138 | the loop sends once to exactly the waiters, and no send can block or panic |
| `Waiters.Handler.OnReset` | http/server.go:114-118 | the latest round is forgotten and the waiters kept |
| `Waiters.Handler.TryPark` | http/server.go:188-196 | parks exactly if a round has been seen and the wanted one is the next; only this request changes |
| `Waiters.Handler.OnCancel` | http/server.go:202-215 | exactly this waiter leaves the list and its channel is drained |
| `TrustWalk.GenuineStep` | client/verify.go:166-188 | on top of the genuine previous signature exactly the genuine one verifies |
| `TrustWalk.Clients.Get` | client/verify.go:43-57 | what a strict client gets above its genuine point of trust, or for round 1, is genuine, for the latest round too; with honest sources a single client gets every round above its point of trust |
| `TrustWalk.Clients.Verify` | client/verify.go:166-188 | above a genuine point of trust only the genuine result is accepted, and the point of trust stays genuine, whatever the group signed; without one, round 2 is accepted exactly if signed on top of the group hash, and others only across such a fork; with honest sources a single client accepts all genuine results of round 1 or above its point of trust |
| `TrustWalk.Clients.GetTrustedPreviousSignature` | client/verify.go:105-164 | from a genuine point of trust below, success is the genuine signature before and leaves such a point of trust, whatever other clients hold; from the group hash it succeeds for rounds 1 and 2, and further only across a fork; nested verifications are for smaller rounds |
| `TrustWalk.NewClientRefuses` | client/verify.go:116-127 | without a fork, a client without a point of trust refuses the genuine result of every round above 1 |
| `TrustWalk.ForgedRoundTwoAccepted` | client/verify.go:116-127 | a strict client whose point of trust is missing or above round 2 accepts a forged round 2 |
| `Latency.LatestWins` | client/optimizing.go:353-363 | each client ends with its latest-started sample, the first such |
| `Latency.PassiveUnchanged` | client/optimizing.go:107-116 | no samples change a passive entry |
| `Latency.WatchSamplesTimed` | client/optimizing.go:377-388 | watch samples start before the passive mark, for every round number |
| `Latency.RankTheorem` | client/optimizing.go:107-116 | over every run of marks and updates a passive entry stays the passive one, and passive clients stand behind all faster ones if and only if those marked since the last update stood at its tail |
| `Latency.MarkedFirst` | client/optimizing.go:107-116 | a run after which a passive client ranks before a faster one |
| `Latency.OptimizingClient.constructor` | client/optimizing.go:52-93 | one entry per client with no round-trip time and the current time, none passive |
| `Latency.OptimizingClient.MarkPassive` | client/optimizing.go:107-116 | exactly this client's entry becomes the passive one, where it stands; the index is not sorted |
| `Latency.OptimizingClient.TakeSamples` | client/optimizing.go:353-363 | the nested loops give every entry the outcome of all samples |
| `Latency.OptimizingClient.UpdateStats` | client/optimizing.go:349-370 | a sorted permutation of the updated entries, the same clients, passive entries unchanged |
| `WatchScheduler.FillMeaning` | client/optimizing.go:487-504 | repopulating keeps the invariant, only adds, and ends full or with nobody eligible, whatever rankings are read |
| `WatchScheduler.WatchedIff` | client/optimizing.go:579-601 | under a fixed ranking an eligible client is watched exactly if fewer eligible clients rank before it than there are free places |
| `WatchScheduler.ReopenedIff` | client/optimizing.go:533-545 | exactly when a protected client whose watch ended is opened again |
| `WatchScheduler.PassiveReopens` | client/optimizing.go:533-545 | a state in which it is |
| `WatchScheduler.LateReportIff` | client/optimizing.go:533-577 | the late report of a closed watch changes nothing exactly if enough eligible clients ranked before its client to keep it from being opened again |
| `WatchScheduler.LateReportHarms` | client/optimizing.go:533-577 | a state in which such a report leaves nobody watched |
| `WatchScheduler.WatchState.constructor` | client/optimizing.go:398-446 | nothing watched, and the passive clients protected |
| `WatchScheduler.WatchState.HasActive` | client/optimizing.go:547-554 | the first index of the client, or -1 exactly if absent |
| `WatchScheduler.WatchState.HasProtected` | client/optimizing.go:556-563 | the first index of the client, or -1 exactly if absent |
| `WatchScheduler.WatchState.Clean` | client/optimizing.go:516-524 | exactly the failures still backing off remain |
| `WatchScheduler.WatchState.NextUnwatched` | client/optimizing.go:579-601 | the best-ranked eligible client, or none exactly if there is none |
| `WatchScheduler.WatchState.TryRepopulate` | client/optimizing.go:487-504 | ends with the list full or no eligible client left, and only adds |
| `WatchScheduler.WatchState.Close` | client/optimizing.go:526-531 | just this client leaves the list |
| `WatchScheduler.WatchState.Done` | client/optimizing.go:533-545 | exactly one watch ends: an active one, whose client then backs off for the retry interval, or else a protected one |
| `WatchScheduler.EndedContents` | client/optimizing.go:533-545 | the same of the contents of all three lists |
| `WatchScheduler.WatchState.CloseSlowest` | client/optimizing.go:565-577 | exactly the last-ranked active client goes, the index is always in range, and an empty list is left alone |
| `WatchScheduler.WatchState.OnClosing` | client/optimizing.go:457-465 | the new state is that of done and repopulate, and the loop ends exactly if nothing is watched or protected |
| `WatchScheduler.WatchState.OnTick` | client/optimizing.go:466-477 | turns exactly if the fastest client is neither watched nor protected; then the last-ranked goes and the list is refilled, else nothing changes |
| `Group.CopyAndSort` | key/group.go:297-309 | a permutation of the identities in key order, indexed by position |
| `Group.NodesUnique` | key/group.go:297-309 | the node list depends only on which identities joined |
| `Group.HashIgnoresOrder` | key/group.go:89-107 | hash and seed do not depend on the order the nodes are held in |
| `Group.HashDetermines` | key/group.go:89-107 | the hash commits to the indices and keys of the nodes, the threshold, both times and the distributed key: groups of equal hash, equal in size or both with or without a key, agree on all of them unless the hash function collides on what is hashed |
| `Group.LittleEndianInjective` | key/group.go:95-98 | a number is determined by its little-endian bytes |
| `Group.GroupObject.HashGroup` | key/group.go:89-107 | the hash over the nodes in index order, which is how it leaves them |
| `Group.GroupObject.GetGenesisSeed` | key/group.go:253-260 | the seed is the stored one, else the hash, for nodes in any order, and is remembered |
| `Group.GroupObject.Encode` | key/group.go:369-400 | the packet has the nodes in the order held before and the seed; hash and seed of the sender stay what they were |
| `Group.WireRoundTrip` | key/group.go:317-400 | each field of the packet is that of the group; a representable group comes back exactly if it is a valid one, with the same contents and the seed written out |
| `Group.WirePreservesHash` | key/group.go:317-400 | the round trip keeps hash and genesis seed, whatever order either side holds the nodes in |
| `Setup.ValidInit` | core/group_setup.go:254-267 | accepted exactly if the threshold is a strict majority and at most the number of nodes |
| `Setup.GatherSound` | core/group_setup.go:172-216 | a complete gathering has exactly the expected members, the leader included, pairwise distinct in address and key, all of whom asked |
| `Setup.GatherComplete` | core/group_setup.go:178-198 | while waiting, every key that arrived is in the gathering or clashes with a member |
| `Setup.EmittedIff` | core/group_setup.go:172-216 | a group is emitted exactly if the expected number of distinct keys was taken before any preemption was sent |
| `Setup.PreemptionBlocks` | core/group_setup.go:199-210 | a preemption waiting when the last key is taken blocks the setup |
| `Setup.SoloNeverReady` | core/group_setup.go:199-210 | a setup for one node never completes |
| `Setup.RunSetup` | core/group_setup.go:172-216 | at most one group, exactly if the gathering completes unblocked and the period is positive, built from its keys; a division by zero exactly if the period is zero |
| `Setup.CreateGroup` | core/group_setup.go:218-242 | the group of a fresh or a reshared network, members in key order, times and seed; a fresh period of zero divides by zero |
| `Setup.SetupTheorem` | core/group_setup.go:172-242 | in whatever order the expected nodes join, the setup completes with one and the same group |
| `Setup.ArrivalOrderIrrelevant` | core/group_setup.go:172-242 | arrival orders that accept the same identities give the same group and hash at a fixed clock |
| `Setup.MembersOfGroup` | core/group_setup.go:172-242 | the group has the threshold, periods and size of the setup, contains the leader, and has distinct addresses and indices in key order |
| `Setup.SetupIsSorted` | key/group.go:89-107 | hashing a group that comes out of a setup leaves its nodes as they are |
| `Setup.GenesisAfterDkg` | core/group_setup.go:221-226 | the genesis lies strictly after three DKG timeouts and the offset, within a period of that, on a multiple of the period |
| `Setup.TransitionTheorem` | core/group_setup.go:228-236 | for every leader clock the transition is the first round time strictly after three DKG timeouts and the offset, and aligned |
| `Setup.FreshSetup` | core/group_setup.go:65-104 | a fresh setup exists exactly for a strict majority, with the parameters given and a default offset of one second |
| `Setup.ReshareKeepsPeriod` | core/group_setup.go:106-132 | a reshare setup keeps the old period, exists exactly for a strict majority, and has the parameters given, with a default offset of thirty seconds and the old catch-up period |
| `Setup.ReshareAccepted` | core/drand_control.go:460-481 | a reshared group is accepted exactly up to its transition time, and passes the alignment check of old and new nodes |
| `PushDkg.HasAddr` | core/drand_control.go:668-675 | whether the address is among the nodes |
| `PushDkg.NodeUnion` | core/drand_control.go:678-687 | both groups' addresses, each once, the first group first |
| `PushDkg.AwaitReplies` | core/drand_control.go:738-770 | success exactly if both groups confirmed up to their thresholds among the replies taken |
| `PushDkg.PushDkgInfo` | core/drand_control.go:713-771 | success exactly if, counting the leader, a threshold of old and of new members acknowledged among the replies heard, which are all exactly if there are fewer than targets |
| `PushDkg.PushNewGroup` | core/drand_control.go:60-65 | for every group a setup emits, fresh or reshared, all replies are heard, and success is exactly a threshold of old and new members |

## Left out

- BLS, Schnorr and ECIES, Lagrange recovery and the DKG protocol itself: external libraries, present only as functions and assumptions.
- gRPC, HTTP, libp2p, TLS, S3 and command-line code: plumbing without state of its own.
- Files, TOML, JSON, configuration, metrics and logging, with the discrepancy store: thin wrappers.
- Real time: sleeps and timeouts are steps that may come at any moment, so nothing is said about how soon anything happens.
- Follow mode (core/drand_control.go:845): its store has no append check, and the chain theorems are about the Handler's store stack.
- Rounds at the very top of uint64: runs of a node keep a few rounds below it (`BelowTop`), and `AppendChainIff` says what happens at the wrap.
- Other clients (cache, poll, watcher, aggregator), the race and the parallel get of the optimizing client, and its speed tests: easier siblings of what is here.
- `ReceivedKey`, which checks secret and signature before a key reaches the setup, and the receiving side of the setup.
- `Equal`, JSON and randomness helpers of a beacon: field comparisons.
- Live streaming after the stored part in `SyncChain`: callbacks are modelled in the node, not on the wire.
- Network.TimingTheorem: assumes synchronised clocks and one group; its hypothesis on ticks is the exact condition of `StaleTickIff`.
- NodeRuns.TryAppendTheorem: runs under one group, because after a resharing the cache may still hold partials of the old group.
- CacheImpl.PartialCache.StrikeSigners: each list is copied to an array of its own before the in-place filter, so sharing of backing arrays between lists is not modelled.
- Handler.Handler.OnPartial: the turn runs without interruption here; interleavings inside it are those of the step system.
- Handler.Handler.OnTick: the tick loop's channels and goroutines are one field, and reading and signing are one turn; the step system has them apart.
- Backpressure.NoDeadlock: callbacks other than the aggregator's return at once, and the set of callbacks is fixed.
- Echo.AgreementTheorem: packets whose send fails on the wire are not modelled, a node pushes each own bundle once, and the application reads in time (`NeverBlocks` says when that is no assumption).
- TrustWalk.Clients.Get: sources answer the round they were asked for, unless it is 0, and points of trust are of rounds from 1 on.
- Latency.OptimizingClient.UpdateStats: samples start no later than the passive mark, which `WatchSamplesTimed` shows for watch samples and the system clock gives for requests.
- Latency.OptimizingClient.TakeSamples: the entries are values in a list, not shared records.
- Group.WireRoundTrip: groups that the wire format can represent; decoding of keys is left to the library.
- Group.HashDetermines: does not separate a group with a key from one without that has a node more, because the hash has no lengths in it; the fields have their Go types.
- Group.GroupObject.HashGroup: node indices are distinct; the order of nodes with equal indices is up to the sort.
- Setup.CreateGroup: a reshared group keeps the period of a running network, which is positive.
- Setup.RunSetup: who is blocked in `StopPreemptively` on a full slot is not modelled.
