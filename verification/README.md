# RedLease in Dafny

RedLease is a lease protocol without a leader. A client sends Acquire, Renew or Release to
N independent servers that keep leases in memory only, and holds a lease once a quorum (1 of
1, 2 of 3, 3 of 5) has granted it. It then relies on the lease until a local instant that it
computes from the start of its own operation, the TTL the servers reported, and a safety
margin of 100 ms. This project models the protocol and the machinery that carries it, and
proves what each part promises.

* **Protocol, ProtocolProof, Exclusion, Paths, Margin**: clients, servers and the network as one
  state machine. Messages are lost, delayed, reordered or delivered twice; servers fail, crash
  and restart into quarantine; a worker's timestamp may be older than the moment it acts; every
  process reads its own clock. `Exclusion.MutualExclusion` is the main theorem;
  `Paths` shows what the operations achieve for every TTL, and `Margin.MarginExact` that the
  margin is both enough and needed.
* **LeaseTable, LeaseShard, LeaseServer, IdealStore, KeyAccounting**: the server's store. A
  shard is a class with a map, a deadline heap with back-pointers and a pool of records, all
  updated in place; the server is a class over such shards and the key counter. It is proved to
  answer every history like an ideal store in which expired leases do not exist, and the
  counter to be exact under every interleaving of workers that hold shard mutexes.
* **Bits, Ring, RingProof, RingTrace**: the bounded queue with many producers and one
  consumer, one step per atomic load, compare-and-swap and store. `RingTrace` follows each
  value from the call that brought it to its delivery.
* **Quorum, Collect, Join, JoinProof, JoinPaths, CloseBarrier, ClosePaths, Healing**: the client: choosing the best
  quorum, collecting replies, joining responses with timeouts, aborts and Close under owners
  that run Acquire, Renew or a healing batch, shutdown, and the order of healing and Release.
* **Session, SessionProof, SessionPaths, Framing**: a server with its listener, all its connections, the
  shared shard workers and Close, and the byte stream of one connection.

Concurrent parts share one shape: a `State`, the steps of each goroutine as guard and effect,
`IsRun` for finite executions, an invariant `Inv`, `RunInv`, and the results at the end. A
trace (`IsTrace`) is a run with the step taken at each point, so that results can be told from
the steps alone; a path is a stretch of steps from any state, and the path lemmas say what an
operation reaches when nothing stands in its way.
Fields that only record history (which instance answered, what was dropped) are marked as
such in the comments and are read by no guard.

Assumptions: lease IDs are unique; all clients use one server set and quorum; 64-bit counters
do not wrap; clocks are monotone. True time is an integer count of nanoseconds that no process
sees. Randomness, I/O results, scheduling and clock readings are parameters of steps or of
methods.

Where the documentation and the code differ the code is followed: Architecture.md line 610
gives the shard queues 16 slots and server/server.go line 30 gives them 256; the ring results
hold for every power of two from 2 on.

## Model

| member | source | states |
|---|---|---|
| `Exclusion.MutualExclusion` | client/acquire.go:120-142 | in every state of every run, two different leases on one key are never both locally valid, if client lag plus server lead over one maximum TTL is at most 100 ms |
| `Exclusion.QuorumBacking` | client/renew.go:120-135 | behind every locally valid lease stand at least Q servers that each store it under a deadline their clock cannot reach while the client relies on it, or are down or barred by quarantine for that long |
| `Exclusion.PerfectQuorumBacking` | client/quorum.go:43-48 | with clocks that show true time, each of those servers keeps the lease at least 100 ms past the local validity, is down, or stays in quarantine longer than that |
| `Exclusion.GrantHolds` | server/state.go:206-292 | while the client relies on a granting reply, the instance that sent it stores the lease to the promised deadline and no later instance of that server has become active |
| `Exclusion.QuarantineOutlasts` | server/server.go:18-27 | an instance started after the operation cannot finish quarantine while the client relies on a reply to it |
| `Exclusion.SharedServer` | server/server.go:233-245 | one server never backs two different leases on a key at the same instant |
| `Margin.MarginExact` | client/quorum.go:22 | for every number of servers, every majority and every TTL from above the margin to the maximum, and all nonnegative lag and lead: exclusion holds in all runs of that deployment if and only if their sum is at most 100 ms |
| `Margin.Overlap` | client/quorum.go:43-48 | for every majority, every such TTL and every lag and lead beyond the margin, a concrete run in which a quorum of servers grants one key to two clients that both rely on it |
| `Paths.GatherPath` | client/acquire.go:89-142 | any quorum of servers, answering in any order, brings an Acquire or Renew of any usable TTL to a confirmed lease stored by all of them |
| `Paths.AcquirePath` | client/acquire.go:89-142 | from any state and for every TTL from above the margin to the maximum, an Acquire that meets a willing quorum ends with the lease held until exactly start + TTL - 100 ms, stored by that quorum for the whole TTL, and no other lease changed |
| `Paths.RenewPath` | client/renew.go:120-145 | a Renew that meets a quorum storing the lease ends with it held until the later of the old validity and start + TTL - 100 ms, and stored by that quorum for the whole TTL |
| `Paths.HealPath` | client/healing.go:95-120 | healing brings a held lease back to a server that lost it and changes nothing else |
| `Paths.ReleasePath` | client/release.go:9-33 | a Release ends the lease at once, reaches every server and leaves none of them with it |
| `Paths.GiveUpPath` | client/acquire.go:172-178 | an Acquire that gives up does the same with whatever it may have obtained |
| `Paths.RestartPath` | server/server.go:233-245 | a crashed server comes back with an empty table and becomes active once its own clock has seen the whole quarantine |
| `Paths.CleanupRemovesExpired` | server/state.go:157-172 | a cleanup of all keys leaves exactly the leases that have not expired on the clock it read |
| `Paths.LimitPath` | server/state.go:189-204 | at the key limit an Acquire is tried once more after a cleanup: it is then granted if there is room, and otherwise answered KEY_LIMIT_REACHED with nothing stored |
| `Paths.RejectPath` | server/connection.go:349-354 | a server in quarantine answers NOT_READY and does nothing |
| `ProtocolProof.RunInv` | client/release.go:9-23 | every reachable state satisfies the inductive invariant that follows each grant from server to client |
| `ProtocolProof.ClientInv` | client/acquire.go:42-170 | starting, sending, receiving, confirming, giving up, healing and releasing keep the invariant |
| `ProtocolProof.HeardReply` | client/renew.go:112-135 | a reply makes its server, and no other, count as successful up to the TTL it granted, less the margin, since the start; a best quorum that is still valid leaves an Acquire held until exactly that instant and a Renew until the later of that and the old one; otherwise, and for other leases, nothing changes |
| `ProtocolProof.ServerInv` | server/state.go:174-326 | executing with an old timestamp, cleaning, activating, failing, crashing and restarting keep the invariant |
| `ProtocolProof.EffectKeeps` | server/state.go:206-326 | no operation removes or shortens a lease that is live at the operation's timestamp, except the Release of that lease |
| `ProtocolProof.EffectGrants` | server/state.go:206-292 | an answer with a positive TTL leaves the lease stored for at least that long after the timestamp |
| `ProtocolProof.QuorumBacks` | client/acquire.go:236-256 | a best quorum that lies beyond the start of its operation consists of servers that each granted at least that validity |
| `LeaseTable.RemainingTTLMS` | server/state.go:360-366 | never more than the true remainder nor the cap, and short of the remainder by less than a millisecond unless capped |
| `Quorum.QuorumParameters` | client/quorum.go:25-36 | selectors 1, 2 and 3 and no others are valid; selector k asks for k of 2k - 1 servers, a majority |
| `Quorum.QuorumsIntersect` | client/quorum.go:25-36 | any two quorums share a server |
| `Quorum.CandidateValidUntil` | client/quorum.go:43-48 | for every TTL above the margin and within the maximum, and only for those, an instant after the start, and then exactly 100 ms before start + TTL |
| `Quorum.SortIsRight` | client/acquire.go:254-255 | the sorted candidates are ascending and as many of them reach any instant as before |
| `Quorum.BestAcquireQuorum` | client/acquire.go:236-256 | for any number of replicas, the maximum over all Q-element sets of successful replicas of their earliest candidate; absent if and only if fewer than Q succeeded |
| `Quorum.BestQuorumUnique` | client/acquire.go:236-256 | that specification determines the result |
| `Collect.AcquireQuorumStillPossible` | client/acquire.go:220-234 | true if and only if the usable replies and the outstanding ones add up to a quorum |
| `Collect.Hopeless` | client/acquire.go:220-234 | once they do not, no later reply, at any later time, completes a quorum that is still valid |
| `Collect.NoteRecords` | client/acquire.go:110-118 | the arrays hold what the replies said: a replica counts as successful exactly when one of its replies so far succeeded, with the candidate of that reply |
| `Collect.RecordedWorth` | client/acquire.go:110-118 | what the arrays show as usable at an instant are exactly the replicas with a successful reply whose TTL, less the margin and counted from the start, ends later |
| `Collect.BestStillValid` | client/acquire.go:120-142 | the best quorum is still valid exactly when at least Q replies are still usable |
| `Collect.CollectQuorum` | client/acquire.go:89-170 | told from the replies alone, and despite giving up early, the loop returns what a client that waits for every reply would: at the first reply with which Q replicas can be relied on beyond the instant of the reply, the last instant up to which Q can be; nothing if there is none or it was cancelled |
| `LeaseShard.Shard.Swap` | server/state.go:48-52 | exchanges two records and keeps every record's index right |
| `LeaseShard.Shard.HeapPush` | server/state.go:54-58 | adds exactly one record, keeps order and indices |
| `LeaseShard.Shard.HeapRemove` | server/state.go:60-68 | removes exactly the record at a position, keeps order and indices |
| `LeaseShard.Shard.AddLease` | server/state.go:120-133 | adds one entry; map, heap, indices and pool stay in agreement, also when a recycled record is used |
| `LeaseShard.Shard.RemoveLease` | server/state.go:135-144 | removes one entry from map and heap and returns its record to the pool |
| `LeaseShard.Shard.RemoveExpiredLeases` | server/state.go:146-155 | removes exactly the leases with deadline at or before now and reports how many |
| `HeapOrder.RootIsEarliest` | server/state.go:146-155 | nothing in an ordered heap is due before its root |
| `LeaseShard.Shard.Extend` | server/state.go:285-288 | changes one deadline and restores order and indices |
| `LeaseServer.Server.ReserveKey` | server/state.go:407-417 | takes a key if and only if one is free |
| `LeaseServer.Server.ReleaseKeys` | server/state.go:419-434 | gives keys back, or stops the server on underflow |
| `LeaseServer.Server.Replace` | server/state.go:226-242 | an expired lease leaves map and heap, its key is given back, and only then a key is reserved and the new lease added |
| `LeaseServer.Server.AcquireOn` | server/state.go:206-243 | on a shard of heap, map and pool and with the real counter: all five outcomes of acquireLocked, and the counter moves by exactly what the shard gains or loses |
| `LeaseServer.Server.RenewOn` | server/state.go:245-292 | an expired lease is dropped and its key returned, a foreign one left alone, an own one never shortened and moved in the heap |
| `LeaseServer.Server.ReleaseOn` | server/state.go:294-326 | removes the caller's own lease or an expired one only, and returns its key |
| `LeaseServer.Server.RemoveExpiredKeys` | server/state.go:157-172 | popping the heaps of all shards leaves exactly the unexpired leases, and the counter equals their number again |
| `LeaseServer.Server.AcquireAttempt` | server/state.go:206-243 | one attempt on the shard of the key, all shards sharing no object, acts as on one table with room for MaxKeys entries |
| `LeaseServer.Server.Acquire` | server/state.go:189-204 | at most one cleanup and one retry; refused only if the limit is still reached after the cleanup |
| `LeaseServer.Server.Renew` | server/state.go:245-292 | the sharded Renew acts as on one table, counter exact |
| `LeaseServer.Server.Release` | server/state.go:294-326 | the sharded Release acts as on one table, counter exact |
| `Shards.MergedFinds` | server/state.go:438-440 | looking a key up in its own shard finds it if and only if it is resident anywhere |
| `IdealStore.StepAgrees` | server/state.go:189-326 | one operation on a store with leftovers answers like the ideal store on the unexpired leases and leaves the same unexpired leases |
| `IdealStore.StoreRefinesIdeal` | server/state.go:146-326 | for every history with nondecreasing timestamps and cleanups anywhere, every status and TTL, KEY_LIMIT_REACHED included, equals that of a store that drops each lease at its deadline |
| `LeaseServer.Serve` | server/state.go:174-326 | the server itself, shards, heaps, pools and counter together, answers every such history exactly as the ideal store does |
| `LeaseServer.ServeOne` | server/state.go:174-187 | one operation of the server answers as the ideal store does and leaves the same unexpired leases |
| `KeyAccounting.KeysExact` | server/state.go:157-172 | in every interleaving of workers and cleanups the counter equals residents plus reservations not yet inserted plus deletions not yet returned; residents never exceed MaxKeys; underflow is unreachable |
| `KeyAccounting.KeyCounts` | server/state.go:206-243 | deleting under the shard mutex, returning, reserving and inserting keep that equation, the inserted key being vacant because the mutex is still held |
| `KeyAccounting.CounterCounts` | server/state.go:407-434 | each load and compare-and-swap of the counter keeps that equation and the limit |
| `KeyAccounting.NeverOverwrites` | server/state.go:212-243 | an insertion never meets an entry under its key: the shard mutex keeps the key vacant from lookup to insertion |
| `KeyAccounting.ThreadProceeds` | server/state.go:206-243 | a thread that works on a key waits for nothing but a mutex |
| `KeyAccounting.StorePath` | server/state.go:206-243 | a thread left alone stores and counts a new key if the limit allows it and otherwise changes nothing |
| `KeyAccounting.RemovePath` | server/state.go:294-326 | a thread left alone removes a key and returns its count |
| `KeyAccounting.ReplacePath` | server/state.go:226-242 | replacing an expired key leaves counter and residents as they were, also at the limit |
| `KeyAccounting.CleanupPath` | server/state.go:157-172 | a cleanup that finds the mutexes free removes exactly the expired keys of every shard and returns exactly their number |
| `Bits.ValidCapacityIsPowerOfTwo` | internal/mpscring/ring.go:34-37 | the bit test accepts exactly the powers of two above one |
| `Bits.MaskIsModulo` | internal/mpscring/ring.go:40-53 | masking a position with capacity minus one is the remainder by the capacity |
| `RingProof.ProducerInv` | internal/mpscring/ring.go:50-95 | every atomic step of every producer, in place or not, keeps the ring's invariant |
| `RingProof.ConsumerInv` | internal/mpscring/ring.go:99-135 | every atomic step of the consumer keeps it |
| `RingProof.FirstInFirstOut` | internal/mpscring/ring.go:50-135 | over every interleaving the values taken are those of positions 0, 1, 2, ... in order, and each later claimed position is published intact or owned by a producer at work |
| `RingProof.ValuesAreFinal` | internal/mpscring/ring.go:73-97 | a producer changes the value of a claimed position only while it fills its own unpublished slot in place, never after delivery |
| `RingProof.DeliversNext` | internal/mpscring/ring.go:99-135 | the consumer changes no value and delivers at most the next position's |
| `RingProof.SoundRefusal` | internal/mpscring/ring.go:50-68 | an enqueue sees a full ring only if at that moment all `capacity` positions before its own are claimed and not released |
| `RingTrace.DeliversTheArgument` | internal/mpscring/ring.go:50-135 | told from the steps of any interleaving: each position is claimed by exactly one step, and the value delivered from it is the argument of that producer's own last call, or, filled in place, the last value it wrote before publishing, a blank if none |
| `RingTrace.RefusedWhenFull` | internal/mpscring/ring.go:50-68 | an enqueue returns false only if, when this very call read the slot's sequence, `capacity` positions were claimed and not released |
| `RingTrace.EnqueueAlone` | internal/mpscring/ring.go:50-97 | from any reachable state, a call left alone publishes its value at the tail and signals if the ring has room, and is refused without a trace if it is full |
| `RingTrace.DequeueAlone` | internal/mpscring/ring.go:99-135 | a consumer left alone takes the value at a published head, blanks the slot and hands it back for the next lap, and otherwise waits |
| `RingTrace.WakeAlone` | internal/mpscring/ring.go:196-222 | a waiting consumer that finds a signal uses it up and looks again |
| `RingProof.NoLostWakeup` | internal/mpscring/ring.go:160-193 | a consumer waiting without a token while its head slot is published will still be signalled by the producer that published it |
| `JoinProof.ExactlyOnce` | client/connection_generation.go:160-183 | however responses, timeouts, aborts and Close race, each registered request is still to be completed or has put exactly one result on a channel |
| `JoinProof.NeverPanics` | client/replica_responses.go:46-55 | no panic is reached: not on release, where every owner arrives with nothing outstanding, an empty channel and no timer, not on an unexpected response, not on a map that Close has taken away |
| `JoinProof.NeverWaitsInVain` | client/replica_responses.go:79-101 | at every call of next something is outstanding; in the loops of Acquire and Renew failed submissions, results taken from different replicas and outstanding results add up to the servers |
| `JoinProof.OwnerProceeds` | client/replica_responses.go:57-127 | wherever an owner stands its next step is open, except that it waits while nothing is on the channel |
| `JoinProof.LoopWaiter` | client/renew.go:65-170 | every way out of the loops of Acquire, Renew and healing, by success, giving up, cancellation or release of the lease, hands over, aborts or releases as the outstanding results demand |
| `JoinProof.SendNeverBlocks` | client/replica_responses.go:57-77 | whoever holds a result finds room on its channel |
| `JoinProof.PooledIsQuiet` | client/replica_responses.go:46-55 | a pooled join has an empty channel and a stopped timer, and nobody can still send to it |
| `JoinProof.ResultIsComing` | client/replica_responses.go:89-94 | once an awaited request is no longer pending, as after its timeout, its result is on the channel or in the hands of somebody about to send it |
| `JoinProof.DrainEnds` | client/replica_responses.go:103-115 | once an abort has been through, this is so of every request still awaited |
| `JoinPaths.JoinEnds` | client/replica_responses.go:46-127 | from every reachable state a join in use can be brought to its release |
| `JoinPaths.FanOutPath` | client/acquire.go:73-170 | a fan-out whose replicas all answer registers each request once, hears Q replicas in the loop and the others in the goroutine that collects the rest, sends every result once and in order, and leaves connections and pool as they were |
| `JoinPaths.LeavesLoop` | client/renew.go:120-164 | on cancellation or when no quorum is possible Acquire aborts and Renew goes on listening, with a quorum both go on listening, and with nothing outstanding the join is released |
| `JoinPaths.RefusedRegistration` | client/replica_conn.go:123-149 | a registration refused because of the caller, of Close or of a full queue uses up its number, is counted and registers nothing |
| `JoinPaths.ClosePath` | client/connection_generation.go:287-302 | Close takes every pending request of a connection out, to be answered, and nothing else |
| `CloseBarrier.SingleConsumer` | client/replica_conn.go:173-231 | across reconnects and shutdown the send queue never has two consumers |
| `CloseBarrier.ClosedForGood` | client/replica_conn.go:107-171 | after Close has returned, and forever: queue empty, no sender and no worker, all pending maps gone, nobody past the cancellation check, every awaited request answered or being answered by its own waiter |
| `CloseBarrier.NoNilMapWrite` | client/connection_generation.go:279-302 | registration never writes to a map that Close has set to nil |
| `CloseBarrier.ClosedGenerationEnds` | client/replica_conn.go:157-171 | the generation that Close takes over and waits for is withdrawn and has been told to end |
| `ClosePaths.QueueConserves` | client/replica_conn.go:107-149 | told from the steps of any run: the requests queued are, in order, those taken off by senders or by Close and those still queued |
| `ClosePaths.SubmitPath` | client/replica_conn.go:123-149 | a submission left alone queues its request and registers it if somebody waits, or leaves no trace after cancellation or when the queue is full |
| `ClosePaths.ReconnectPath` | client/replica_conn.go:173-231 | a connection that fails is withdrawn and joined and the manager opens the next one |
| `ClosePaths.ClosePath` | client/replica_conn.go:157-171 | from every reachable state with no mutex held and no answer under way, Close runs to completion, answering everything pending and nothing else |
| `Healing.ReleaseComesLast` | client/release.go:9-33 | on every replica's queue nothing but Release follows a Release of the lease, the lease is locally invalid when one may be enqueued, and at most one healer runs |
| `Healing.HealerInv` | client/healing.go:41-120 | healer start, exit or restart and batches keep that order |
| `Healing.OwnerInv` | client/release.go:9-33 | the owner's Acquire, Renew, failure cleanup and Release behind the batch barrier keep it |
| `Healing.QueueIsAccepted` | client/replica_conn.go:107-149 | told from the steps of any run: a replica's queue holds exactly the requests it has accepted, in the order they were submitted |
| `Healing.ReleaseReachesAll` | client/release.go:28-33 | once Release, or an Acquire that failed, is past its loop, every replica has been asked to release and each that accepted holds that Release as its last entry |
| `Healing.ReliesOnObtained` | client/renew.go:131-135 | the client relies on the lease until the longest instant its Acquire and Renews have obtained, and not at all from the moment it is released |
| `Healing.OperationProceeds` | client/release.go:21-22 | an operation under way has a step to take, except at the batch barrier, and then the healer it waits for has one |
| `Healing.HealPath` | client/healing.go:41-120 | a healer goes on while a replica is unconfirmed, asks exactly its targets to take the lease back, and ends when all are confirmed |
| `SessionProof.EveryRequestOnce` | server/connection.go:210-239 | for any number of connections sharing the shard queues: every request a connection has read is in exactly one place, its own WaitGroup counts exactly its undischarged operations, and no WaitGroup goes below zero |
| `SessionProof.DoneIsCounted` | server/connection.go:355-362 | every Done finds something counted: of a connection that finishes, of a refused dispatch and of a discharged operation |
| `SessionProof.CleanEnd` | server/connection.go:135-178 | per connection: once it has stopped serving, after a clean end of its input, with no failed write and the server neither failed nor closed, every request it has read was answered and its response flushed exactly once |
| `SessionProof.ResponsesEnd` | server/connection.go:145-149 | whenever a sender returns because the responses have ended, every request was answered and flushed exactly once or dropped, and dropped only if the server has failed or been closed |
| `SessionProof.SenderFlowOk` | server/connection.go:139-176 | a sender gives up only after an input error, a failed write or when the server is unavailable; a clean end of the input does not stop it |
| `SessionProof.NoAddAfterWait` | server/server.go:214-226 | once Close is past the connection mutex no connection can be added and every one it waits for has been closed; once its wait has returned none is counted and no reader is at work, forever |
| `SessionProof.NoDispatchAfterExit` | server/state.go:88-118 | a shard worker that has exited leaves an empty queue, and no connection can dispatch to any shard again |
| `SessionProof.ListenerRegistration` | server/connection.go:71-82 | registration under the mutex, with the phase check, keeps the count of connections exact against Close |
| `SessionProof.ConnectionRegistration` | server/connection.go:86-122 | leaving the set under the mutex and then the WaitGroup keeps both in step with the connections, and the WaitGroup never goes below zero |
| `SessionProof.ReaderCounts` | server/connection.go:110-117 | a connection whose reader is at work is still counted, so Close is not past its wait |
| `SessionProof.WorkerProceeds` | server/state.go:111-118 | a worker with an operation can always go on to skip, apply, answer or discharge it |
| `SessionProof.WorkerInv` | server/state.go:111-118 | each operation is discharged once, on the WaitGroup of its own session, whether skipped, answered or dropped |
| `SessionProof.SenderInv` | server/connection.go:161-176 | dequeueing, buffering, flushing and failing lose and repeat no response |
| `SessionPaths.SessionPath` | server/connection.go:86-178 | on an active server a connection that comes, sends any number of requests to any shards and leaves has had every response flushed in order, none dropped or unsent, and changes nothing else |
| `SessionPaths.DischargePath` | server/state.go:111-118 | an operation whose answer is dropped, because the server is not active or its context is done, is discharged all the same |
| `SessionPaths.FailPath` | server/server.go:188-212 | a failure makes the server unavailable, cancels everything and closes every connection |
| `SessionPaths.ShutdownPath` | server/server.go:214-231 | Close without connections closes the server and stops every shard worker |
| `Framing.FrameWriter.BufferFrame` | internal/transport/frame_rw.go:68-83 | accepts a frame or changes nothing accepted; every accepted byte is on the wire or buffered, in order, and until a write fails both hold whole frames |
| `Framing.FrameWriter.Flush` | internal/transport/frame_rw.go:86-94 | hands the whole buffer over, or part of it and then fails for good, losing no byte |
| `Framing.FrameReader.ReadFrame` | internal/transport/frame_rw.go:98-122 | returns what the bytes of the stream say, as `ReadMeans` spells out, however they are cut into chunks, and advances exactly past the frame |
| `Framing.SizeRoundTrip` | internal/transport/frame_rw.go:110 | every size below 2^32, encoded least significant byte first, is read back from the prefix, whatever follows |
| `Framing.ReadMeans` | internal/transport/frame_rw.go:106-129 | a read yields a frame if and only if the stream starts with the size of a payload of 4 to 1020 bytes, encoded that way, and the payload; an end if and only if it is empty; an unexpected end if and only if it stops within the prefix or within such a frame |
| `Framing.WholeFramesFit` | internal/transport/frame_rw.go:98-122 | the number of whole frames in a broken stream is the largest that fits |
| `Framing.BrokenStream` | internal/transport/frame_rw.go:98-122 | a stream of well-formed frames that breaks off anywhere reads as exactly the frames that arrived whole |
| `Framing.BrokenEnd` | internal/transport/frame_rw.go:124-129 | its end is clean if and only if it broke off between two frames |
| `Framing.FramesRoundTrip` | internal/transport/frame_rw.go:68-122 | reading back a whole stream of well-formed frames, each the little-endian size and the payload, returns those frames |
| `Framing.PayloadsRoundTrip` | internal/transport/frame_rw.go:68-122 | payloads of 4 to 1020 bytes come back as they were, in order, each behind its size |
| `Framing.Transfer` | internal/transport/frame_rw.go:68-122 | a reader behind a writer, under any chunking, returns the frames of the payloads written, in order up to the last whole one, and all frames flushed if no write failed |

## Left out

- FlatBuffers encoding and the generated message accessors: messages are datatypes.
- Sockets, dialling, logging, metrics, HTTP endpoints, the commands, etcd registration and the load generator: drivers and plumbing.
- Backoff jitter and retry delays: randomness and floating point beside the protocol.
- Ring length: the source reads tail and head separately, so no bound is claimed for concurrent use.
- Liveness and timing of healing: only the order of what is enqueued is claimed.
- Which replicas count as confirmed: the healing targets and the outcome of a batch are free choices of a step.
- KEY_LIMIT_REACHED under concurrent shards: exactness is claimed for sequential histories, as `IdealStore.StoreRefinesIdeal` states; under concurrency `KeyAccounting.KeysExact` bounds the residents.
- Wrap-around of 64-bit ring positions, request IDs and lease sequences, and collisions of boot IDs: excluded by assumption.
- The single-server client package: it repeats the quorum client for N = Q = 1 with futures in place of joins.
- LeaseServer.Server.ReserveKey: sequential; the compare-and-swap loop under concurrency is modelled in `KeyAccounting`.
- LeaseServer.Server.ReleaseKeys: sequential, as above.
- LeaseServer.Serve: a cleanup in a history visits all shards at once; cleanups that visit any part of the keys are covered by `IdealStore.StoreRefinesIdeal`.
- Heap library: its standard sift-up and sift-down are modelled over the source's Swap; Pop is Remove at the root.
- Read errors other than the end of the stream: a chunked stream in `Framing` ends, it does not fail.
- Temporary accept errors and their delays: the listener just goes on accepting.
- The mutex that keeps two cleanups apart: `KeyAccounting` holds without it.
- Capacities of the shard and response queues in `Session`: an enqueue may always succeed, or be refused once the context is done.
