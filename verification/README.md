# Verified model of the Elrond node's consensus, sharding and broadcast cores

This project models five cores of elrond-go in Dafny and proves what they promise.

- **Consensus rounds.** `Rounds.dfy` turns clock time into round indices, floating-point rounding
  included. `Chronology.dfy` drives the subrounds of a round and proves the shape of every possible
  sequence of `DoWork` calls, registrations at any time included. `MessageStore.dfy` and `Worker.dfy`
  are the message store as a step system in which every read of the consensus state and every
  hand-over is a step of its own and other threads may change the state in between: no message is lost
  or duplicated, each is tested in its own round before it is taken out, it is never delivered before
  that round, and a pass delivers what was due. `Wakeup.dfy` is the hand-shake between message
  handlers, the sync listener and a waiting subround. `RoundVotes.dfy` counts votes and writes the
  signer bitmap.
- **Sharding.** `NodesSetup.dfy` allocates the genesis nodes, `NodesCoordinator.dfy` draws consensus
  groups from them and reads signer bitmaps, `Shards.dfy` sends addresses to shards, `Topics.dfy`
  names the topics between shards.
- **Broadcast simulation.** `Hamming.dfy` and `Broadcast.dfy`: neighbours by Hamming distance, and
  the breadth-first flood of a message over the resulting graph.
- **Packets.** `Packers.dfy`: the two greedy packers.
- **Bitmap-backed sets.** `Bitmaps.dfy`, used by the above and by `RequiredDataPool.dfy`.

`Arithmetic.dfy`, `BigEndian.dfy`, `Sets.dfy` and `Wrappers.dfy` hold shared definitions.

Classes follow the structs that update their fields; loops stay loops. Hashing, signature checks,
marshalling, `CanProceed`, `Check`, `Job`, the clock, random ids and the content of messages are
parameters, and the theorems hold for all of them. Machine integers are written out where they
matter: 32-bit sums and shifts, 16-bit lengths, 64-bit floats.

## Findings

Where the code does not do what its documentation says, the model follows the code. Each finding has
a member with an input that shows it and a theorem that says exactly when the promise does hold.

- A message whose round has been tested can reach its handler in a later round, because the hand-over
  waits for the receiving goroutine (`LateDelivery`); it does so exactly if the consensus round moves
  on between test and delivery (`DeliveryRound`).
- `SizeDataPacker` loses elements: an element that overflows the open chunk and is itself overflowed
  by the next one goes out as an empty buffer (`MiddleElementLost`; `LosslessIff` gives the condition).
- `GetSelectedPublicKeys` never answers with the too-many-selections error; with too many marks it
  indexes past its result first (`TwoMarksPanic`; `GetSelectedPublicKeys` states every outcome).
- The coordinator loads lists that repeat a key, and a metachain without nodes. A group is drawn
  exactly if there are enough distinct keys; otherwise the draws never end or divide by zero
  (`RepeatedKeyNeverEnds`, `ComputeValidatorsGroup`).
- `NodesSetup` adds its two minima in 32 bits; if that wraps around, the check on them passes, and the
  setup panics unless the metachain swallows the whole list (`WrapAccepted`, `OneNodePanics`;
  `RoomForAShardIff` and `NewNodesSetup` give the conditions).
- `NodesSetup` accepts public keys that are not hexadecimal, because the address overwrites the error
  (`MalformedKeysAccepted`; `ProcessConfig` states what is accepted).
- The round index is exact for 2^53 nanoseconds (104 days) around genesis (`FloatIndexExact`). Farther
  away it can be ahead of time (`IndexAheadOfTime`). With rounds that are a multiple of the step of
  64-bit floats there, it is so exactly for the moments that are rounded into the next round
  (`LateIndexExact`).
- With many shards no address can belong to the metachain: 32-byte addresses stop qualifying at 4352
  shards (`NoMetachainFrom4352Shards`; `MetachainReachableIff` gives the condition).
  The staking contract's own address leaves the metachain already at 512 shards (`StakingContractShard`).
- A chronology that waits for a subround nobody has registered stands still, until exactly that
  subround is registered (`HaltingRun`, `HaltedStays`, `HaltedRevives`). With a fixed table this can
  happen exactly if a chain of successors runs out of the table (`SomeTurnsHaltIff`).
- A handler registered under the reserved identifier -1 can be called twice in one round
  (`ReservedWorksTwice`); otherwise no round is worked on twice (`SegmentsGoUp`). With a fixed table a
  repetition is possible exactly if there is such a handler (`SomeTurnsRepeatIff`).
- A round does not begin with the first registered handler if another one is registered later under the
  same identifier (`FirstHandlerShadowed`, `FirstHandlerOpensIff`).

## Model

| member | source | states |
|---|---|---|
| Broadcasting.Network.SendMessage | benchmark-broadcast/broadcast/broadcast.go:98-154 | after the flood every reachable peer stores a route along real edges that is as short as any, unreachable peers store nothing, ids and neighbours are untouched, and the result is the number of unreachable peers; the loop terminates |
| Broadcasting.Network.Flood | benchmark-broadcast/broadcast/broadcast.go:98-144 | the visited peers are exactly those with a route, and the routes are settled: closed under edges and growing by at most one along an edge |
| Broadcasting.Network.ServePeer | benchmark-broadcast/broadcast/broadcast.go:110-131 | after a peer has sent, each of its neighbours has a route, the queue is still ordered by depth, and no earlier route has changed |
| Broadcasting.Network.StorePath | benchmark-broadcast/broadcast/broadcast.go:135-142 | exactly the served peer gets its path appended |
| Broadcasting.SettledIsExact | benchmark-broadcast/broadcast/broadcast.go:98-154 | settled routes label exactly the reachable peers, each with a shortest route |
| Broadcasting.VisitNeighbour | benchmark-broadcast/broadcast/broadcast.go:123-129 | queueing an unvisited neighbour behind the others keeps every invariant of the flood |
| Broadcasting.FinishPeer | benchmark-broadcast/broadcast/broadcast.go:108-144 | a peer whose neighbours all have routes can be counted as finished: depths in the queue still differ by at most one |
| Broadcasting.Network.HopNumber | benchmark-broadcast/broadcast/broadcast.go:168-182 | the result is the maximum of the stored path lengths |
| Broadcasting.HopsAreEccentricity | benchmark-broadcast/broadcast/broadcast.go:168-182 | on shortest routes the hop number is the distance of the farthest reachable peer |
| Broadcasting.Broadcast | benchmark-broadcast/broadcast/broadcast.go:16-38 | on any distinct ids and any number of peers per node, the whole simulation floods the graph of nearest peers, reports its eccentricity as hops and its unreachable peers as lonely |
| Broadcasting.Network.ComputeDistance | benchmark-broadcast/broadcast/broadcast.go:57-83 | the peer gets the ids of its nearest peers in order, ties to the lower index; when candidates run out, peer 0 fills up |
| Broadcasting.NearestRemaining | benchmark-broadcast/broadcast/broadcast.go:68-75 | one scan finds the first of the nearest remaining peers, or index 0 if none remains |
| Broadcasting.NeighbourChoice | benchmark-broadcast/broadcast/broadcast.go:57-83 | with distinct ids and enough peers the neighbours are distinct others in order of distance with ties to the lower index, and everybody left out comes later in that order |
| Broadcasting.Network.CreatePeers | benchmark-broadcast/broadcast/broadcast.go:40-55 | peers are numbered by position, with their ids, no neighbours and no path |
| Broadcasting.PeerPath | benchmark-broadcast/copy/copy.go:11-17 | the path is extended by the sender's path and the sender |
| Broadcasting.CountUnvisited | benchmark-broadcast/broadcast/broadcast.go:146-150 | the count is the number of unvisited peers |
| Hamming.XOR | benchmark-broadcast/bits/bits.go:5-17 | the result has a one exactly at the bits in which the arguments differ, and the error comes exactly for different lengths |
| Hamming.CountSet | benchmark-broadcast/bits/bits.go:19-30 | shifting out every byte counts the ones of the whole string |
| Hamming.DistanceCountsBits | benchmark-broadcast/bits/bits.go:5-30 | the distance of two ids is the number of bits in which they differ |
| Hamming.DistanceSeparates | benchmark-broadcast/bits/bits.go:5-30 | the distance of two ids is zero exactly for equal ids, symmetric, and at most the number of bits |
| Wakeups.NoLostWakeUp | consensus/spos/subround.go:117-130 | in every interleaving, when a subround is parked before an empty channel and no producer is between report and token, a check began after the last change that was reported |
| Wakeups.WakeUpOnItsWay | consensus/spos/worker.go:395-409 | a parked subround that missed a change finds the token, or some producer can deliver it in at most two steps of its own |
| Wakeups.NextCovered | consensus/spos/worker.go:172-178 | every step, the skipped send included, keeps a missed change covered by a token or a producer underway |
| Wakeups.RunCovered | consensus/spos/worker.go:395-409 | the same over every run |
| Wakeups.TokensConserved | consensus/spos/worker.go:395-409 | over every run each token put into the channel has woken the subround once or is still there, and there is at most one |
| Wakeups.SoleProducerNeverBlocks | consensus/spos/worker.go:395-409 | over every run, a producer that is the only one finds room whenever it is about to send |
| Wakeups.LookSpelledOut | consensus/spos/subround.go:117-130 | a look at the channel follows the one before and the steps of the others; with a token there the subround wakes up and checks, without one nothing comes of it |
| Wakeups.DoWork | consensus/spos/subround.go:100-131 | as a part of any run of the step system: one check at the beginning and one for every look that finds a token, until the first true answer or the first look that finds the time over; true exactly if the last check succeeds; only giving up calls Extend, and then a token is there, or on its way, or the last check began after the last reported change; nothing happens without job or check |
| Chronologies.RunSafe | consensus/chronology/chronology.go:121-195 | over every run, registrations of any identifiers at any time included, the calls of DoWork form segments in positive rounds: each opens after the one before is over, at the identifier that was first in the table when its round began or at -1, follows next only after true, stays in its round, and ends at the first false answer or last subround; every call goes to the handler registered last under its identifier |
| Chronologies.FirstHandlerOpensIff | consensus/chronology/chronology.go:161-194 | a turn that begins a round calls a handler with the first one's identifier, and the first one itself exactly if no later one is registered under that identifier |
| Chronologies.FirstHandlerShadowed | consensus/chronology/chronology.go:93-100 | of two handlers with one identifier the later one is called |
| Chronologies.LoopIsRun | consensus/chronology/chronology.go:113-118 | the main loop is the run of its updates and calls |
| Chronologies.RunIncreases | consensus/chronology/chronology.go:121-158 | with a clock that never goes back the segments' rounds never decrease, and increase unless the segment opens at a handler under -1 |
| Chronologies.SegmentsGoUp | consensus/chronology/chronology.go:121-158 | with a clock that never goes back and -1 left free the segments' rounds strictly increase, registrations at any time included |
| Chronologies.ReservedWorksTwice | consensus/chronology/chronology.go:93-100 | a handler under -1 is called twice in one round |
| Chronologies.SomeTurnsRepeatIff | consensus/chronology/chronology.go:121-195 | with a fixed table and a clock that never goes back, some turns work on a round twice exactly if a handler is registered under -1 |
| Chronologies.NoRoundTwice | consensus/chronology/chronology.go:121-158 | rounder and driver together, floating-point rounding included: no round is worked on twice |
| Chronologies.RunOnTrack | consensus/chronology/chronology.go:121-195 | with a closed chain of successors the current subround is always the start marker or registered |
| Chronologies.TurnStuckIff | consensus/chronology/chronology.go:121-145 | the next turn changes nothing, for every time and answer, exactly if the awaited subround is not registered; otherwise it works on it |
| Chronologies.HaltedStays | consensus/chronology/chronology.go:121-145 | through any turns, removals and other registrations a halted driver stays halted, its round and its calls unchanged |
| Chronologies.HaltedRevives | consensus/chronology/chronology.go:93-100 | registering the awaited subround makes the next turn call it |
| Chronologies.HaltingRun | consensus/chronology/chronology.go:121-145 | one handler with an unregistered successor halts the driver in its first turn |
| Chronologies.RemovedStaysSilent | consensus/chronology/chronology.go:103-110 | after a removal nobody is called until somebody is registered |
| Chronologies.SomeTurnsHaltIff | consensus/chronology/chronology.go:121-195 | with a fixed table, some turns halt the driver exactly if a chain of successors from the first handler, or from one under -1, leaves the table within as many steps as there are subrounds |
| Chronologies.StepSafe | consensus/chronology/chronology.go:93-175 | each single step keeps the handler table, the pending subround and the shape of the trace |
| Chronologies.Chronology.constructor | consensus/chronology/chronology.go:37-64 | the driver starts before a round, with no handlers |
| Chronologies.Chronology.AddSubround | consensus/chronology/chronology.go:93-100 | registration is the model's Add step |
| Chronologies.Chronology.RemoveAllSubrounds | consensus/chronology/chronology.go:103-110 | removal is the model's RemoveAll step |
| Chronologies.Chronology.TurnOnce | consensus/chronology/chronology.go:121-145 | a turn of the main loop is the model's update and call, with the real rounder |
| Chronologies.Chronology.UpdateToNow | consensus/chronology/chronology.go:148-175 | the rounder moves to the current time and a new round starts at the first handler |
| Chronologies.Chronology.Load | consensus/chronology/chronology.go:178-195 | a handler exactly if the current subround is registered, and then the one with its identifier |
| Chronologies.RoundAtMonotone | consensus/round/round.go:36-45 | the rounder's index never decreases with time, however far from genesis |
| Rounds.Round.UpdateRound | consensus/round/round.go:36-45 | the time stamp is genesis plus index times duration; within 2^53 nanoseconds of genesis, on either side, the current time lies in the round |
| Rounds.Round.constructor | consensus/round/round.go:19-33 | a new rounder is at the round of the current time |
| Rounds.FloatIndexExact | consensus/round/round.go:37-39 | floor of the rounded quotient is the exact floor for elapsed times below 2^53 nanoseconds |
| Rounds.FloatIndexMonotone | consensus/round/round.go:37-39 | rounding never makes a later moment's index smaller |
| Rounds.LateIndexExact | consensus/round/round.go:37-39 | before and after genesis, where floats are the multiples of a step that divides the duration, the index is the exact one, plus one exactly for times less than half a step before the next round, or half a step if that is the even choice |
| Rounds.IndexAheadOfTime | consensus/round/round.go:37-39 | beyond that bound, a time one nanosecond before a round begins already gets that round's index |
| Workers.RunSound | consensus/spos/worker.go:219-391 | in every state of every run, whatever other threads change between two reads: conservation, arrival order, delivery in the order of taking out, and justification of every acceptance, test and discard |
| Workers.MessagesConserved | consensus/spos/worker.go:350-391 | accepted messages are waiting, stored, being delivered, handed over and discarded together, nothing occurs twice, and the stored ones are the arrivals that have not left, in order |
| Workers.TakenOutProvenance | consensus/spos/worker.go:374-391 | every message taken out was accepted with a good signature and header, was of the run's consensus round at the step that tested it, and its subround could proceed at a later step |
| Workers.AcceptedThen | consensus/spos/worker.go:219-320 | every accepted message passed its checks on what the run showed at steps that follow each other: sender eligible, round not past, signature and header good, not from itself, round not cancelled |
| Workers.GoodIsAccepted | consensus/spos/worker.go:219-320 | a received message that is in order, under a consensus state that nobody changes, is accepted and waits for the lock |
| Workers.DiscardedThen | consensus/spos/worker.go:200-216 | every discarded message was older than the rounder's index at the step that discarded it |
| Workers.DeliveryRound | consensus/spos/worker.go:374-391 | if the consensus round does not go back, no message is delivered before its round, and it is delivered in its round exactly if no change of round falls between its test and its delivery |
| Workers.LateDelivery | consensus/spos/worker.go:374-391 | every message, for every later round, has a run that delivers it in that round |
| Workers.RunTrue | consensus/spos/worker.go:219-391 | over every run the recorded views of checks, tests, deliveries and discards are what the run showed at those steps, in that order |
| Workers.PassCanFinish | consensus/spos/worker.go:362-391 | from every state of a pass the holder of the lock and the receiver alone can finish it |
| Workers.PassLeavesNothingOld | consensus/spos/worker.go:362-372 | if the rounder does not go back, after a whole pass no type of the range stores a message older than the rounder's index was when the pass began |
| Workers.PassDeliversDue | consensus/spos/worker.go:362-391 | if during a pass the consensus round stays the same and a type's subround can proceed, every message of that round and type stored when it began has been handed over when it ends |
| Workers.DueIsDelivered | consensus/spos/worker.go:350-391 | whoever gets the lock, with an accepted message or on request: if nobody changes the consensus state, holder and receiver alone deliver every message of the present round whose subround can proceed, the one just entered included |
| Workers.OneAtATime | consensus/spos/worker.go:386-409 | over every run the receiver finishes with one message before it gets the next, of whatever type |
| Workers.NextSound | consensus/spos/worker.go:350-391 | each single step keeps all of that |
| Workers.ProcessReceivedMessage | consensus/spos/worker.go:219-320 | with every read of the consensus state seeing its own view: each error exactly for its cause, in the order sender, past round, signature, header, fork detector; executed exactly without an error, not from itself, and not of a round that is cancelled |
| Workers.ProcessIsMachine | consensus/spos/worker.go:219-320 | the method and the step system, one read per step, accept and drop the same messages |
| Workers.ExecuteMessage | consensus/spos/worker.go:374-391 | in place, exactly the messages that pass the test of their round and then that of their subround are replaced by holes and handed over, in order |
| Workers.GetCleanedList | consensus/spos/worker.go:200-216 | the result is the messages that are neither holes nor outdated, in order |
| Workers.ExecuteLoopIsMachine | consensus/spos/worker.go:374-391 | the execution loop and the step system, with its separate tests and delivery, agree position by position |
| Workers.CleanLoopIsMachine | consensus/spos/worker.go:200-216 | so do the cleaning loop and the step system, in what is kept and in what is discarded |
| RoundVotes.ReplayVotes | consensus/spos/consensusState.go:221-241 | after any history of groups, votes, withdrawals, strangers' votes and resets, the bitmap shows exactly who has voted and its ones equal the computed size |
| RoundVotes.ConsensusState.GenerateBitmap | consensus/spos/consensusState.go:221-241 | bit i is set exactly if member i has done its job, all others are zero, and the popcount is the number of votes |
| RoundVotes.ConsensusState.ResetConsensusState | consensus/spos/consensusState.go:55-64 | no block body, header or data, no finished subround, no vote in any subround |
| RoundVotes.ConsensusState.constructor | consensus/spos/consensusState.go:37-52 | a new state has no vote |
| RoundVotes.RoundConsensus.SetConsensusGroup | consensus/spos/roundConsensus.go:66-78 | exactly the members have a state of their own, and nobody has voted |
| RoundVotes.RoundConsensus.SetJobDone | consensus/spos/roundConsensus.go:119-133 | one vote changes and no other; a stranger is refused and changes nothing |
| RoundVotes.RoundConsensus.JobDone | consensus/spos/roundConsensus.go:102-115 | the vote of a member, the error for anyone else |
| RoundVotes.RoundConsensus.ComputeSize | consensus/spos/roundConsensus.go:169-185 | the number of votes of the group |
| RoundVotes.RoundConsensus.ResetRoundState | consensus/spos/roundConsensus.go:189-204 | no vote is left and the group stays |
| RoundVotes.RoundConsensus.ConsensusGroupIndex | consensus/spos/roundConsensus.go:36-43 | the first position of the key, or the error if it is nowhere |
| RoundVotes.RoundState.SetJobDone | consensus/spos/roundState.go:30-34 | only the given subround changes |
| RoundVotes.RoundState.ResetJobsDone | consensus/spos/roundState.go:37-45 | every subround is not done |
| RoundVotes.RoundStatus.SetStatus | consensus/spos/roundStatus.go:39-43 | only the given subround changes |
| RoundVotes.RoundStatus.ResetRoundStatus | consensus/spos/roundStatus.go:46-54 | every subround is not finished |
| RoundVotes.ReceivedSignature | consensus/spos/bls/subroundSignature.go:112-164 | a signature counts exactly if it is stored, on the right data, of this round, from another member that has not signed, while the subround is not finished, and for a leader while the tally is below the threshold; it then raises the tally by exactly one, and changes nothing otherwise |
| NodesCoordination.NodesCoordinator.ComputeValidatorsGroup | sharding/indexHashedNodesCoordinator.go:100-132 | for every hash function and randomness: the group exactly if the list has that many distinct keys, and then of the wanted size, drawn by hash and probing, distinct and eligible; never ending with fewer; a division by zero exactly for an empty list, which only the metachain can have; the errors exactly for missing randomness and unknown shards |
| NodesCoordination.CheckIndex | sharding/indexHashedNodesCoordinator.go:285-302 | the first unselected entry at or after the proposed index, cyclically; none exactly if no number of probes would find one |
| NodesCoordination.ValidatorIsInList | sharding/indexHashedNodesCoordinator.go:305-313 | true exactly if the key is selected |
| NodesCoordination.DrawsCompleteIff | sharding/indexHashedNodesCoordinator.go:125-129 | the draws can fill the group exactly if the eligible list has that many distinct keys |
| NodesCoordination.DrawnFromUnique | sharding/indexHashedNodesCoordinator.go:125-129 | the hashed indices determine the group: all nodes compute the same one |
| NodesCoordination.DrawnGroupIsValid | sharding/indexHashedNodesCoordinator.go:125-129 | a drawn group has distinct keys, all eligible |
| NodesCoordination.DrawInputsDiffer | sharding/indexHashedNodesCoordinator.go:268-272 | no two draws of a selection hash the same input |
| NodesCoordination.StartIsHash | sharding/indexHashedNodesCoordinator.go:268-282 | the start index of a draw is the remainder of the big-endian hash by the length of the list, hashed being the number of the draw on eight bytes and the random source |
| NodesCoordination.DrawByHash | sharding/indexHashedNodesCoordinator.go:125-129 | member i of a group is the first entry, cyclically from the hash of i and the random source, whose key no earlier member has |
| NodesCoordination.NodesCoordinator.SetNodesPerShards | sharding/indexHashedNodesCoordinator.go:69-89 | the map is loaded exactly if every list is large enough; each error exactly for its cause; a refused map leaves the old one |
| NodesCoordination.NewIndexHashedNodesCoordinator | sharding/indexHashedNodesCoordinator.go:23-66 | a coordinator exactly for good arguments and large enough lists, and then valid; the errors of the arguments in order |
| NodesCoordination.RepeatedKeyNeverEnds | sharding/indexHashedNodesCoordinator.go:125-129 | two entries with one key are loaded for groups of two, and drawing never ends; a metachain without nodes divides by zero |
| NodesCoordination.TwoMarksPanic | sharding/indexHashedNodesCoordinator.go:218-223 | two marks for a group of one index past the result |
| NodesCoordination.NodesCoordinator.GetSelectedPublicKeys | sharding/indexHashedNodesCoordinator.go:194-231 | with a group's worth of marks the marked keys, with fewer the too-few error, with more an index out of range; lengths in 16 bits |
| NodesCoordination.CollectMarked | sharding/indexHashedNodesCoordinator.go:207-230 | the same for the scan alone |
| NodesCoordination.MarkedKeysByRank | sharding/indexHashedNodesCoordinator.go:211-219 | as many keys as marks, each at the rank of its mark |
| GenesisAllocation.NewNodesSetup | sharding/nodesSetup.go:57-79 | refused exactly if not accepted; without wrap-around every node is decoded and gets the shard of its position, and the map is balanced: every node listed once, the metachain's minimum exactly, at least one shard, every shard's minimum, sizes within one, and acceptable to the coordinator; with wrap-around ready, and without a shard, exactly if the metachain's minimum is the whole list, and a panic otherwise |
| GenesisAllocation.GenesisFormsGroups | sharding/nodesSetup.go:57-79 | from configuration to consensus group: with distinct keys every shard and the metachain can form a full group in every round |
| GenesisAllocation.NodesSetup.ProcessConfig | sharding/nodesSetup.go:81-128 | success exactly for nodes with a key, an address and a hexadecimal address, and for ordered sizes whose 32-bit sum of minima is at most the number of nodes; the two parse errors exactly for what is wrong with the first bad node; on success all nodes are decoded |
| GenesisAllocation.HexBytes | sharding/nodesSetup.go:87-88 | every decoded byte is spelled by its own pair of digits, the higher one first |
| GenesisAllocation.HexDecodeExact | sharding/nodesSetup.go:87-88 | decoding succeeds exactly on pairs of digits throughout, and otherwise stops at the first pair that is none |
| GenesisAllocation.NodesSetup.ProcessMetaChainAssigment | sharding/nodesSetup.go:130-138 | exactly the first nodes go to the metachain; it fails exactly if the list is too short |
| GenesisAllocation.NodesSetup.ProcessShardAssignment | sharding/nodesSetup.go:140-162 | every node gets the shard its position determines; it fails exactly on a division by zero shards |
| GenesisAllocation.NodesSetup.FillBlock | sharding/nodesSetup.go:147-153 | one shard's block is filled |
| GenesisAllocation.NodesSetup.AllocateRest | sharding/nodesSetup.go:157-161 | the rest goes round robin |
| GenesisAllocation.Placement | sharding/nodesSetup.go:130-162 | the first nodes go to the metachain, then a block to each shard, and the rest in turn |
| GenesisAllocation.NodesSetup.CreateInitialNodesInfo | sharding/nodesSetup.go:164-174 | the map lists under every shard exactly its nodes, in order |
| GenesisAllocation.InfoByRank | sharding/nodesSetup.go:164-174 | every node is listed under its shard with its own key and address, after exactly the earlier nodes of that shard |
| GenesisAllocation.AllocationBalanced | sharding/nodesSetup.go:130-174 | an allocation by position, mapped by shard, is balanced and passes the coordinator's size checks |
| GenesisAllocation.ShardOccurrences | sharding/nodesSetup.go:140-162 | each shard receives exactly its closed-form number of nodes |
| GenesisAllocation.MetachainOccurrences | sharding/nodesSetup.go:130-138 | the metachain receives exactly its minimum |
| GenesisAllocation.RoomForAShardIff | sharding/nodesSetup.go:122-125 | an accepted configuration leaves room for a shard exactly if the sum of minima does not wrap around |
| GenesisAllocation.WrapAccepted | sharding/nodesSetup.go:122-125 | a configuration of one node whose sum of minima wraps around is accepted |
| GenesisAllocation.OneNodePanics | sharding/nodesSetup.go:130-138 | that configuration makes the setup index past its list |
| GenesisAllocation.MalformedKeysAccepted | sharding/nodesSetup.go:87-94 | two different texts that are not hexadecimal are accepted and become the same key |
| Shards.MultiShardCoordinator.ComputeId | sharding/multiShardCoordinator.go:49-72 | the metachain exactly for its contracts, otherwise a shard below the count, determined by the address as one number |
| Shards.OnMetachainIff | sharding/multiShardCoordinator.go:50-59 | with n shards, the addresses of the metachain are exactly those of more than fifteen bytes whose last n/256 + 1 bytes are 255 and whose bytes 0 to 7 and 10 to 14 are zero |
| Shards.StakingContractShard | vm/factory/factory.go:4 | the staking contract is on the metachain exactly with fewer than 512 shards |
| Shards.ShardInRange | sharding/multiShardCoordinator.go:66-69 | every number has a shard below the count |
| Shards.ShardForIsRemainder | sharding/multiShardCoordinator.go:43-72 | the shard of a number is its remainder by the least power of two not below the shard count, or that minus half the power if there is no such shard |
| Shards.ResiduesOfShard | sharding/multiShardCoordinator.go:66-69 | a shard owns its own residue, and a second one exactly if the upper half has an orphan at its offset |
| Shards.GrowthMovesOnlyToNewShard | sharding/multiShardCoordinator.go:43-72 | adding a shard moves addresses to the new shard only |
| Shards.EveryShardHasAnAddress | sharding/multiShardCoordinator.go:49-72 | every shard has an address of every length from five bytes |
| Shards.MetachainReachableIff | sharding/multiShardCoordinator.go:50-59 | with n shards an address of a given length can be on the metachain exactly if it has at least n/256 + 16 bytes |
| Shards.NoMetachainFrom4352Shards | core/address.go:52-68 | no 32-byte address is on the metachain with 4352 shards, and some are with 4351 |
| Shards.MasksSelectShard | sharding/multiShardCoordinator.go:43-46 | the two masks compute the shard of a number |
| Shards.AddressNumber | sharding/multiShardCoordinator.go:61-64 | the 32-bit accumulation keeps the low 32 bits of the big-endian number |
| Shards.TailKeepsLowBits | sharding/multiShardCoordinator.go:50-56 | the trailing bytes in 32 bits have the same low digits as the whole address |
| Shards.NewMultiShardCoordinator | sharding/multiShardCoordinator.go:23-37 | created exactly for a positive count and an own shard in it or the metachain, with fitting masks |
| Shards.IsSmartContractOnMetachain | core/address.go:52-68 | true exactly for long addresses with eight leading zeros, five zeros from the tenth byte, and an identifier of ones |
| Shards.IsMetachainIdentifier | core/address.go:41-49 | true exactly if every byte is 255 |
| Topics.IdentifierIdentifiesPair | sharding/multiShardCoordinator.go:109-127 | two pairs of shards, metachain included, share an identifier exactly if they are the same pair in either order |
| Topics.TopicNames | sharding/multiShardCoordinator.go:109-127 | the names themselves: the lower shard first, the metachain last as META |
| Topics.CutAtUnderscore | sharding/multiShardCoordinator.go:109-127 | an identifier splits at its underscores in one way only |
| Topics.DecimalRoundTrip | sharding/multiShardCoordinator.go:126 | decimal printing can be read back |
| Topics.NumeralRoundTrip | sharding/multiShardCoordinator.go:126 | a numeral without leading zeros is read and printed back unchanged |
| Topics.PrintedIsNumeral | sharding/multiShardCoordinator.go:126 | only such numerals are printed |
| Packers.SimplePackDataInChunks | core/partitioning/simpleDataPacker.go:31-66 | the packets carry the data in order, each is a single element or below the limit, and no such split uses fewer; the error cases exactly |
| Packers.PackRaw | core/partitioning/simpleDataPacker.go:39-65 | the loop produces a greedy split |
| Packers.GreedyIsOptimal | core/partitioning/simpleDataPacker.go:43-55 | no allowed split of the data has fewer chunks than a greedy one |
| Packers.GreedyStaysAhead | core/partitioning/simpleDataPacker.go:43-55 | after any number of chunks a greedy split has covered at least as much as any other |
| Packers.SizePackDataInChunks | core/partitioning/sizeDataPacker.go:30-90 | the packets are the intended chunks, blanked ones as empty buffers; chunks of several elements marshal below the limit; the data comes back exactly if none is blanked |
| Packers.PackBySize | core/partitioning/sizeDataPacker.go:38-89 | the loop with its cache sends exactly that |
| Packers.PackElement | core/partitioning/sizeDataPacker.go:44-78 | one turn of the loop, with the cache empty exactly after a restart |
| Packers.LosslessIff | core/partitioning/sizeDataPacker.go:53-78 | what the receiver reads is the data without the blanked elements, and the data itself exactly if there are none |
| Packers.MiddleElementLost | core/partitioning/sizeDataPacker.go:58-74 | of three elements that fit alone but not in pairs, the middle one is lost |
| Packers.ChunksBySizeHoldData | core/partitioning/sizeDataPacker.go:42-79 | the intended chunks hold the data in order, and chunks of several elements fit |
| Packers.ChunksBySizeOptimal | core/partitioning/sizeDataPacker.go:42-79 | if shrinking a list never lengthens its marshalling, no allowed split has fewer chunks |
| RequiredData.Replay | process/requiredDataPool.go:27-66 | after any arrivals, duplicates and strangers included, the pool is satisfied exactly if every expected hash has arrived |
| RequiredData.RequiredDataPool.SetHashes | process/requiredDataPool.go:27-37 | the expected hashes are set and nothing counts as received |
| RequiredData.RequiredDataPool.SetReceivedHash | process/requiredDataPool.go:41-50 | the bitmap encodes the received set with the hash added; an unexpected hash changes no bit |
| RequiredData.RequiredDataPool.ReceivedAll | process/requiredDataPool.go:54-66 | true exactly if every expected hash is received |
| RequiredData.RequiredDataPool.Reset | process/requiredDataPool.go:69-74 | nothing expected, no bitmap |
| Bitmaps.PopCountOfEncoding | process/requiredDataPool.go:58-62 | counting ones byte by byte counts the flags a bitmap encodes |
| Bitmaps.SetBit | consensus/spos/consensusState.go:236 | setting a bit changes that bit and no other |

## Left out

- Networking, storage, the REST API, wiring and command lines: calls into other systems.
- Cryptography and marshalling: parameters; marshalling is taken as total, so the packers' error returns from it do not occur.
- Latency in the broadcast simulator and its spreadsheets: floating-point reporting.
- Peers are given their neighbours one after the other, not in parallel goroutines; each goroutine writes only its own peer.
- A registration during a running `DoWork` counts as one right after it, since the main loop does not look into its table meanwhile.
- `CanProceed` is one read of the consensus state; what it looks at there is a parameter.
- The signature statistics and `Extend` of the worker: logging, sleeping and calls into the block processor.
- Nil checks of constructor parameters, getters, thresholds other than the one `ReceivedSignature` reads.
- GenesisFormsGroups: requires distinct decoded keys, which the code does not check.
- NewNodesSetup: takes fewer than 2^32 nodes.
- UpdateRound: rounding is any monotone function that is exact on integers up to 2^53 and off by at most 2^-53 of the value; durations are at most 2^53 nanoseconds and 64-bit overflow of time stamps is not modelled.
- LateIndexExact: requires a duration that is a multiple of the float's step, such as whole milliseconds for 18 years around genesis, and rounding to nearest.
- SendMessage: takes peers as `CreatePeers` and `ComputeDistance` build them from distinct ids.
- ChunksBySizeOptimal: assumes that dropping elements never lengthens a marshalled list.
