# Verified models of stice

This project models the parts of stice, a C++ ICE and TURN stack with its TURN server, whose correctness rests on
concurrency, byte-stream framing or several tables that must agree, and proves what those parts promise.  Check it with
`dafny verify dfyconfig.toml`.

Sequential code keeps its form: objects that change are classes with `modifies` clauses, loops are loops, and each is
proved against a specification function.  Code that runs on several threads, or on two machines, is a state machine whose
steps are single critical sections, atomic actions or messages; its theorems are about every reachable state of every run.

| file | subject |
|---|---|
| `Tunnel`, `WriteBuffer` | the RFC 6062 data pipe of the server: half-bound buffering, publication, partial writes |
| `AllocLifetime` | reference-counted allocations under any number of IO threads |
| `ServerTables` | allocation tables, lookup maps, pending connects and the relay-port pool |
| `Hairpin` | the local-relay shortcut against the two-hop path |
| `ConnOrder` | order of a connection's chunks through epoll workers and shards |
| `EpollSlots`, `PollBarrier` | the client's poll registry: slot table and removal barrier |
| `RoleConflict`, `CheckScheduler`, `PatientFailure` | the ICE agent: roles, check scheduling, patient failure |
| `TurnClient`, `PeerData` | client transactions, retransmission and authentication retries; buffered application data |
| `Options`, `Bytes`, `ChannelData`, `StunConn`, `Rfc4571`, `DataConn`, `StunMessage`, `TcpTransport` | framing and codecs |
| `Hashing`, `Crc`, `Priority` | streaming hashes, HMAC, CRC-32, priorities |

## What the code does not meet

Where a promise fails for some inputs the code is modelled as it is, with a run that shows it and the exact condition:

- A peer that streams past the pre-pair cap loses bytes but its connection can still be paired, since closing it is only
  queued (`Tunnel.OverflowHappens`); bytes are conserved exactly when the cap was never exceeded (`Tunnel.LostIffOverflowed`),
  and everything received can be delivered exactly if, besides, no chunk looked up before publication is still to be buffered
  past it (`Tunnel.DeliversIff`).
- The comment in `PollRegistry::sync` calls giving up after two seconds safe.  It is not while the poll thread is on its way
  to the participant (`PollBarrier.TimedOutSyncIsUnsafe`), and it is in every other state (`PollBarrier.GivingUpUnsafeIff`).
  The header promises a full iteration that starts after the call; the code waits for the end of the current one, which is
  enough for the barrier.
- The patience deadline survives a connected episode, so after a new gather the agent may fail at once
  (`PatientFailure.SecondEpisodeMayBeImpatient`); an episode is patient exactly when it begins without a deadline
  (`PatientFailure.PatientIff`).
- A 487 for the first copy of a check that was retransmitted under the same transaction id after a role switch switches an
  agent back.  That happens to the agent with the larger tiebreaker if both start controlled, to the other if both start
  controlling (`RoleConflict.CanFlipBack`), and otherwise never (`RoleConflict.KeepsRoleIff`); in a given state it can happen
  exactly if an id was used in both roles (`RoleConflict.CanLeaveIff`).
- An unforced epoll sync misses a socket that was silently closed and reused by the same owner with the same events
  (`EpollSlots.ReusedSocketMissed`); exactly when is `EpollSlots.UnforcedSyncRegisters`.  The forced sync does not.
- Triggered checks do not consult the concurrency cap.  They can exceed it exactly if it is below the size of the entry table
  (`CheckScheduler.CapCanBeExceededIff`), and a given one does exactly if the cap was reached and it starts a check
  (`CheckScheduler.ExceedsCapIff`).
- On an IPv4 relay address with an IPv6 client the shortcut delivers frames of 65508 to 65520 octets that the two hops drop
  (`Hairpin.LongFrameDiffers`); the paths agree exactly on all other frames (`Hairpin.ShortcutInvisibleIff`).
- A TCP allocation asked for over UDP (`ServerTables.NoControlBreaks`), or a client address shared by two allocations
  (`ServerTables.SharedAddressBreaks`), leaves the tables incoherent, and nothing else does (`ServerTables.CommitKeepsIff`).
- Buffered application data is meant to stay in order, but data sent while some still waits overtakes it
  (`PeerData.OvertakingRun`); exactly then (`PeerData.DirectKeepsIff`).
- A drain lock kept by a worker across the reuse of its socket handle no longer orders the new connection
  (`ConnOrder.TwoReadersReorder`); exactly when a handle may be reused is `ConnOrder.ReuseSafeIff`.
- `sendTurnDataConn` truncates the length of payloads of 65536 bytes and more (`Rfc4571.FramedIff`).

## Model

| member | source | states |
|---|---|---|
| `WriteBuffer.SendLoop` | src/stserver/turn_server.cpp:577-603 | the send loop takes exactly what the kernel's results allow: everything up to the first would-block, or a failure |
| `WriteBuffer.FlushTakes` | src/stserver/turn_server.cpp:577-603 | it takes the sum of the kernel's results up to the first that is not positive, but no more than waits; it fails exactly if that one is fatal |
| `WriteBuffer.TcpConn.FlushLocked` | src/stserver/turn_server.cpp:577-603 | the bytes written are a prefix of what waited, the rest still waits in order, a fatal error drops it, and write interest is kept exactly while something waits |
| `WriteBuffer.TcpConn.SendRawLocked` | src/stserver/turn_server.cpp:555-569 | new data goes behind what waits, whatever part of the buffer was already sent; sending nothing changes nothing |
| `Tunnel.WriteLoopIsPossible` | src/stserver/turn_server.cpp:551-603 | every outcome of the write loop is one of the outcomes the tunnel's send steps allow |
| `Tunnel.RunKeeps` | src/stserver/turn_server.cpp:1457-1574 | the tunnel invariant holds after every interleaving of chunks, binds, publications, flushes, partial writes and closes |
| `Tunnel.Transparent` | src/stserver/turn_server.cpp:1915-1962 | a paired socket's output from its bind response on is a prefix of that response and the partner's received bytes; while it is healthy nothing is missing, doubled or reordered |
| `Tunnel.LostIffOverflowed` | src/stserver/turn_server.cpp:1915-1950 | bytes received are bytes relayed plus bytes waiting if and only if the pre-pair cap was never exceeded |
| `Tunnel.OverflowExactly` | src/stserver/turn_server.cpp:1937-1946 | the only step that loses bytes is buffering a chunk that would exceed the cap |
| `Tunnel.OverflowHappens` | src/stserver/turn_server.cpp:1937-1946 | for every cap there is a run that exceeds it and leaves the connection pairable, because closing it is only queued |
| `Tunnel.NothingStranded` | src/stserver/turn_server.cpp:1952-1962 | after publication and both flushes a connection nobody is working on has handed everything over: no byte stays in the pre-pair buffer |
| `Tunnel.UnpairedSilent` | src/stserver/turn_server.cpp:2004-2012 | a connection without a partner puts nothing but control responses on the wire |
| `Tunnel.HeadFixedOncePaired` | src/stserver/turn_server.cpp:1526-1554 | once a pair is published no control response is queued into the tunnel |
| `Tunnel.FirstBinds` | src/stserver/turn_server.cpp:1478-1513 | the first bind of a pending CONNECT and its response leave the socket recorded as the first one, answered, and the handler free |
| `Tunnel.PublishPairs` | src/stserver/turn_server.cpp:1545-1572 | in every reachable state the publishing step of the second bind, with the first socket alive, makes each socket the other's peer in both directions, retires the CONNECT and leaves both buffers to be flushed |
| `Tunnel.SecondPairs` | src/stserver/turn_server.cpp:1514-1573 | so a second bind of a live first socket always ends with the two tunnelled to each other |
| `Tunnel.DeliversIff` | src/stserver/turn_server.cpp:1915-1962 | delivery: in every reachable state with a pair published and the peer healthy, some continuation of mutex-holder, binder and kernel steps puts everything received on the peer's wire, if and only if no byte was lost and none is about to be by a chunk looked up before publication |
| `Tunnel.NextChunkDelivers` | src/stserver/turn_server.cpp:1915-1936 | and then the next chunk that arrives can be delivered too |
| `Tunnel.ClosedStaysOut` | src/stserver/turn_server.cpp:1598-1614 | a connection that is being closed leaves the tunnel in both directions and never gets back in |
| `AllocLifetime.StepKeeps` | src/stserver/turn_server.cpp:384-472 | each step of each thread keeps the lifetime invariant |
| `AllocLifetime.NoUseAfterFree` | src/stserver/turn_server.cpp:384-472 | in no interleaving does any thread touch an allocation that was freed |
| `AllocLifetime.CountIsExact` | src/stserver/turn_server.cpp:404-413 | the reference count is the number of references held, and a freed allocation is in no map, no lookup and no hand, and its mutex is free |
| `AllocLifetime.LookupEnds` | src/stserver/turn_server.cpp:384-413 | in every reachable state a lookup by an entered key runs through without waiting and ends with one more reference to the allocation entered there, or with none if it is being destroyed |
| `AllocLifetime.CreatedIsFound` | src/stserver/turn_server.cpp:987-1017 | in every reachable state a new allocation can be entered under each of its keys as soon as nobody looks in that map, touches no other entry, and is what a lookup then finds |
| `AllocLifetime.MutexExclusive` | src/stserver/turn_server.cpp:1223-1236 | from lock to unlock a thread is alone with an allocation's mutex, whatever the others and the sweep do |
| `AllocLifetime.SweepExclusive` | src/stserver/turn_server.cpp:1643-1674 | so is the sweep, and nothing is destroyed until it has released it |
| `AllocLifetime.CountOnlyFalls` | src/stserver/turn_server.cpp:425-472 | once all map entries of an allocation are erased, no step raises its reference count |
| `AllocLifetime.LookerCanMove` | src/stserver/turn_server.cpp:2116-2124 | a thread in the middle of a lookup always has a next step that brings it nearer to the end, whatever the destroyer does |
| `AllocLifetime.DestroyCompletes` | src/stserver/turn_server.cpp:425-472 | from every reachable state of a destruction the threads that look, hold references or use an allocation's mutex can finish without the state lock, and the allocation is freed: no deadlock |
| `AllocLifetime.DestroyFrees` | src/stserver/turn_server.cpp:425-472 | every live allocation can be destroyed, by lookup or by the sweep, and then no map leads to it |
| `AllocLifetime.SweepMustRelease` | src/stserver/turn_server.cpp:1668-1675 | if the sweep kept an allocation's mutex while destroying it, with a reference holder waiting for it, no step would get out of that |
| `ServerTables.CoherentDetermines` | src/stserver/turn_server.cpp:425-472 | coherence fixes every lookup map, the pending index and the port pool from the live allocations |
| `ServerTables.AddKeeps` | src/stserver/turn_server.cpp:987-1017 | committing an allocation whose keys nobody has keeps every map an exact inverse |
| `ServerTables.AddNeedsUnclaimed` | src/stserver/turn_server.cpp:987-1017 | and only then: a key or client address already in use breaks some map |
| `ServerTables.RemoveKeeps` | src/stserver/turn_server.cpp:425-472 | erasing by key on destruction removes the allocation's own entries and nobody else's |
| `ServerTables.OnlyOwnErased` | src/stserver/turn_server.cpp:434-450 | no key erased on destruction belongs to another allocation |
| `ServerTables.CurrentIsLive` | src/stserver/turn_server.cpp:682-733 | the allocation found for a request is the one live allocation of that client, if there is one |
| `ServerTables.NoOrphan` | src/stserver/turn_server.cpp:1677-1691 | every recorded port owner is still in the table of allocations |
| `ServerTables.Tables.constructor` | src/stserver/turn_server.cpp:193-206 | the empty server is coherent |
| `ServerTables.Tables.AllocRelayPort` | src/stserver/turn_server.cpp:348-368 | a reserved port is in range, unused and not to be avoided; 0 means no such port exists; nothing else changes |
| `ServerTables.ReleaseSafe` | src/stserver/turn_server.cpp:370-382 | a release takes a live allocation's port from it only if it is that allocation's own release |
| `ServerTables.ReservationUndone` | src/stserver/turn_server.cpp:370-382 | a release undoes a reservation, whoever asks |
| `ServerTables.Tables.BindRelay` | src/stserver/turn_server.cpp:918-965 | it fails if and only if every attempt fails, of which there are 51 or as many as the range has free ports, and then leaves no reservation; a success holds exactly one new reservation, of the first port that could be bound |
| `ServerTables.Tables.TryBinds` | src/stserver/turn_server.cpp:918-945 | the retry loop stops at the first attempt that binds, and fails only after all have failed |
| `ServerTables.FreePortSuffices` | src/stserver/turn_server.cpp:901-945 | with a free port in the range and a first bind that succeeds, or TCP, capacity is there; with no free port it is not |
| `ServerTables.Tables.Reserve` | src/stserver/turn_server.cpp:901-974 | it succeeds if and only if TCP finds an unused port of the range, or UDP one that can be bound within 51 attempts; what is reserved then, and nothing else |
| `ServerTables.Tables.Commit` | src/stserver/turn_server.cpp:987-1017 | the committed allocation is live, one under the same key is overwritten, and the tables are coherent exactly if the client is separate from all others |
| `ServerTables.CommitKeepsIff` | src/stserver/turn_server.cpp:987-1017 | on a fresh port and fresh sockets a commit keeps coherence if and only if a TCP allocation has a TCP control connection and nobody else has the client's address |
| `ServerTables.NoControlBreaks` | src/stserver/turn_server.cpp:1005-1008 | a TCP allocation without a control connection is entered under a handle that answers to no socket |
| `ServerTables.SharedAddressBreaks` | src/stserver/turn_server.cpp:1017-1017 | an allocation under the key of another frees it and leaves its entries behind, or shares its address |
| `ServerTables.SharedAddressErased` | src/stserver/turn_server.cpp:439-442 | and why: destroying the TCP one of two allocations with one address erases the other's entry |
| `ServerTables.Tables.EraseIndexes` | src/stserver/turn_server.cpp:434-471 | the maps erased at destruction |
| `ServerTables.Tables.DestroyAllocation` | src/stserver/turn_server.cpp:425-472 | exactly this allocation goes, and all tables stay coherent |
| `ServerTables.Tables.HandleAllocate` | src/stserver/turn_server.cpp:877-1025 | each error and success is returned exactly when: a bad transport, the quota, no port to be had; success adds one allocation on an unused port and keeps the tables coherent if and only if the request is apart from the others; every error leaves everything as it was |
| `ServerTables.Tables.ReplaceExpired` | src/stserver/turn_server.cpp:745-759 | an expired allocation of the client is destroyed first, a live one is kept |
| `ServerTables.Tables.OnAllocate` | src/stserver/turn_server.cpp:743-770 | a live allocation is a mismatch, an expired one is replaced, otherwise the reply is the one of an Allocate on the tables without it, exactly; coherence is kept on every path, on success exactly if the request is apart from the others |
| `ServerTables.Tables.HandleRefresh` | src/stserver/turn_server.cpp:1029-1051 | the granted lifetime is clamped; zero destroys exactly this allocation |
| `ServerTables.Tables.FindTcpAllocByPeer` | src/stserver/turn_server.cpp:317-330 | the scan finds the one TCP allocation at that relayed port, or there is none besides the asker |
| `ServerTables.Tables.HandleConnect` | src/stserver/turn_server.cpp:1427-1455 | no peer address is a bad request; it succeeds exactly if the address is that of another TCP allocation, and then adds one indexed pending connect; else it is forbidden |
| `ServerTables.Tables.HandleConnectionBind` | src/stserver/turn_server.cpp:1457-1574 | an unknown id is the only miss; the first bind records its socket, the second retires the pending connect from allocation and index together |
| `ServerTables.Tables.Retire` | src/stserver/turn_server.cpp:1567-1572 | the fulfilled pending connect leaves the allocation and the index |
| `ServerTables.Tables.CloseControl` | src/stserver/turn_server.cpp:1578-1596 | closing a control connection destroys its allocation and leaves none with that control socket |
| `ServerTables.Tables.TrimPendings` | src/stserver/turn_server.cpp:1661-1667 | exactly the expired pending connects leave the allocation and the index |
| `ServerTables.Tables.ExpireStale` | src/stserver/turn_server.cpp:1638-1692 | exactly the expired allocations and pending connects go, and the orphan sweep finds nothing |
| `ServerTables.SweptIff` | src/stserver/turn_server.cpp:1641-1675 | an allocation is left exactly if it is unexpired, as it was but for its expired pending connects |
| `ServerTables.Tables.SweepOrphans` | src/stserver/turn_server.cpp:1677-1691 | the orphan sweep never fires |
| `Hairpin.ForwardToClient` | src/stserver/turn_server.cpp:1287-1380 | the packet for data from a peer: its unexpired channel first, else an unexpired permission of its IP, else a drop |
| `Hairpin.HandleChannelDataFrame` | src/stserver/turn_server.cpp:1210-1283 | a frame goes to the peer its channel number is bound to and nowhere else; a client gets it only if it admits the sender; the outcome depends on the shortcut exactly for frames only the direct path can carry |
| `Hairpin.ByNumberIff` | src/stserver/turn_server.cpp:1225-1236 | the channel found for a frame is the first with its number; there is none if and only if no channel has it |
| `Hairpin.ByPeerIff` | src/stserver/turn_server.cpp:1309-1321 | the channel found for a peer is its first unexpired one; there is none if and only if it has none |
| `Hairpin.UnboundDropped` | src/stserver/turn_server.cpp:1243-1248 | a frame on a number no channel has is dropped, with or without the shortcut |
| `Hairpin.RemotePeerReached` | src/stserver/turn_server.cpp:1279-1282 | a frame on a channel whose peer no local socket reads leaves the relay socket for that peer with the frame's data |
| `Hairpin.LocalPeerServed` | src/stserver/turn_server.cpp:1266-1282 | a frame for a local client's relayed address is what that client is sent for data from the sender's relayed address |
| `Hairpin.ChannelServes` | src/stserver/turn_server.cpp:1309-1321 | data from a peer with an unexpired channel reaches the client framed with that channel's number |
| `Hairpin.PermissionServes` | src/stserver/turn_server.cpp:1322-1341 | without one, an unexpired permission of its IP address delivers it as a Data indication |
| `Hairpin.IndicationSize` | src/stserver/turn_server.cpp:1326-1331 | the size counted for a Data indication is that of its encoding |
| `Hairpin.StrangerDropped` | src/stserver/turn_server.cpp:1373-1376 | with neither it is dropped |
| `Hairpin.SameDestination` | src/stserver/turn_server.cpp:1266-1278 | the allocation found by relayed address is the one whose relay socket reads that address |
| `Hairpin.OversizeDropped` | src/stserver/turn_server.cpp:1346-1369 | data too long for the relay socket is delivered on the direct path exactly if the relay address is IPv4, the client is on IPv6, the data has 65508 to 65520 octets and the client has a channel for the sender |
| `Hairpin.ShortcutInvisible` | src/stserver/turn_server.cpp:1210-1283 | with one address family for all, for every coherent table state and frame the shortcut gives the same packet to the same client, the same drop or the same outside send |
| `Hairpin.ShortcutInvisibleIff` | src/stserver/turn_server.cpp:1210-1283 | with mixed families it does so if and only if the frame is not one of those only the direct path carries; then the two hops drop what the shortcut delivers |
| `Hairpin.LongFrameDiffers` | src/stserver/turn_server.cpp:1266-1282 | for each such length, two clients for whom the paths differ |
| `Hairpin.DelayHarmless` | src/stserver/turn_server.cpp:1733-1754 | the time the second hop takes does not matter unless a channel or permission expires meanwhile |
| `ConnOrder.StepKeepsLocks` | src/stserver/io_epoll.cpp:443-453 | until a socket is dropped every worker on it uses the one current drain lock |
| `ConnOrder.StepKeepsRoutes` | src/stserver/turn_server.cpp:2034-2073 | every queued chunk is in the shard its socket maps to |
| `ConnOrder.StepKeepsOrder` | src/stserver/io_epoll.cpp:360-386 | each step keeps the pipeline of every open socket in kernel order |
| `ConnOrder.InOrder` | src/stserver/turn_server.cpp:1756-1768 | in every run, until close or removal, and again for a handle reused when nothing of the old connection is left, processed, batched, queued and in-hand chunks of a socket are together exactly what the kernel handed out, in order |
| `ConnOrder.AllProcessed` | src/stserver/turn_server.cpp:1756-1768 | nothing is stuck: in every reachable state the worker with a chunk in hand and the shard alone can process everything the kernel handed out, in order |
| `ConnOrder.CloseForgets` | src/stserver/io_epoll.cpp:443-453 | after a close the handle's next drain lock is one nobody has or holds |
| `ConnOrder.TwoReadersReorder` | src/stserver/io_epoll.cpp:360-386 | two workers inside with different drain locks of one socket can queue what was read first last |
| `ConnOrder.ReuseSafeIff` | src/stserver/io_epoll.cpp:443-453 | a new connection under a closed one's handle is in order in every continuation if and only if no chunk of the old one is on its way and no worker still has a drain lock that is no longer the handle's |
| `EpollSlots.SilentCloseKeeps` | src/net/poll.cpp:420-427 | a close behind the table's back keeps its invariant |
| `EpollSlots.SyncOneKeeps` | src/net/poll.cpp:391-456 | reconciling one socket keeps slots and socket map mutually inverse and the kernel's slot indexes right |
| `EpollSlots.SweepOneKeeps` | src/net/poll.cpp:461-472 | so does dropping a slot |
| `EpollSlots.DesiredEntry` | src/net/poll.cpp:318-473 | after a sync a desired socket's slot names its own participant, transport and events |
| `EpollSlots.OtherEntry` | src/net/poll.cpp:461-472 | every other socket is gone from table and kernel, except the interrupt socket |
| `EpollSlots.ForcedSyncRegisters` | src/net/poll.cpp:388-456 | after a forced sync every desired socket the kernel accepts is registered with its own events and its own slot, whatever was closed or reused |
| `EpollSlots.UnforcedSyncRegisters` | src/net/poll.cpp:428-454 | without force, exactly when: the kernel still had it, or the table saw a change |
| `EpollSlots.ChangeRegisters` | src/net/poll.cpp:428-454 | a socket new to the table, or there under another participant, transport, index or with other events, is registered by any sync with a slot of its own |
| `EpollSlots.ReusedSocketMissed` | src/net/poll.cpp:420-454 | for every table and desired set: a socket synced, silently closed and desired again unchanged is missed without force and registered with it |
| `EpollSlots.SlotsComeFromDesired` | src/net/poll.cpp:318-473 | active slots point only to participants of this sync |
| `EpollSlots.Registry.constructor` | src/net/poll.cpp:289-316 | slot 0 is the interrupt socket |
| `EpollSlots.Registry.Reconcile` | src/net/poll.cpp:391-456 | ADD, MOD, or DEL and ADD, as the reconciliation of one socket says |
| `EpollSlots.WantedIff` | src/net/poll.cpp:340-373 | exactly the open sockets of the participants are desired, each with its own transport and events |
| `EpollSlots.Collect` | src/net/poll.cpp:340-373 | the loop over the participants collects them |
| `EpollSlots.Registry.EpollSync` | src/net/poll.cpp:318-473 | the collected sockets are synced in three passes, with force when asked or when a second has passed since the last full sync |
| `PollBarrier.CarriedKept` | src/net/poll.cpp:497-717 | whatever the poll thread carries is registered or was removed in the current generation |
| `PollBarrier.Barrier` | src/net/poll.cpp:214-240 | once the generation passed a removal, no poll-thread step touches that participant, from any snapshot or slot, whatever any other sync did |
| `PollBarrier.NeverTouchesFreed` | src/net/poll.cpp:192-240 | a participant destroyed after its own sync saw the generation advance is never touched again, even if other syncs gave up |
| `PollBarrier.TimedOutSyncIsUnsafe` | src/net/poll.cpp:222-239 | a sync that gave up is no barrier: a run in which the destroyed participant is called |
| `PollBarrier.TouchedAgainIff` | src/net/poll.cpp:497-717 | a removed participant is called again in some continuation if and only if the poll thread is on its way to it: in what is left of a snapshot or in a slot still to be dispatched |
| `PollBarrier.GivingUpUnsafeIff` | src/net/poll.cpp:222-239 | so destroying it after a sync gave up is unsafe in exactly those states; while the thread waits for events it is safe |
| `PollBarrier.GenerationAdvances` | src/net/poll.cpp:497-717 | wherever it is, the poll thread alone ends its iteration and raises the generation by exactly one, or exits if stopped |
| `PollBarrier.SyncReturnsIff` | src/net/poll.cpp:214-240 | a sync that begins now can return with the barrier passed if and only if the poll thread has not exited |
| `PollBarrier.StopEnds` | src/net/poll.cpp:497-717 | after a stop the poll thread can always exit |
| `PollBarrier.EveryoneIsAsked` | src/net/poll.cpp:497-717 | whoever is registered when a phase begins is called in it before it ends |
| `RoleConflict.SteadyKept` | src/ice/agent.cpp:2347-2373 | each message keeps a side that was always in its right role there, and unrejected |
| `RoleConflict.LargerControls` | src/ice/agent.cpp:2347-2373 | under loss, reordering, duplication and retransmission the larger tiebreaker that starts controlling always controls, never gets a 487, and each of its requests leaves the other controlled |
| `RoleConflict.LargerControlsIff` | src/ice/agent.cpp:2347-2373 | for every pair of starting roles: it always controls if and only if it starts controlling, can come to control unless the other starts controlling alone, and keeps control once it has it unless both start controlled |
| `RoleConflict.LeavesOnlyByReuse` | src/ice/agent.cpp:2457-2468 | either side leaves its right role only on a 487 for a check it sent in both roles under one transaction id |
| `RoleConflict.CanLeaveIff` | src/ice/agent.cpp:2457-2468 | in every reachable state what is in the network can make a side leave its right role if and only if it has such a check |
| `RoleConflict.CanFlipBack` | src/ice/agent.cpp:1987-2006 | a run, for either side, when both start in the role that loses for it |
| `RoleConflict.KeepsRoleIff` | src/ice/agent.cpp:2347-2373 | a side keeps its right role in every run if and only if the agents do not both start in the other one |
| `RoleConflict.ArmedTakesNewId` | src/ice/agent.cpp:1987-2006 | a check that is armed goes out under an unused id, and keeps it until it is armed again |
| `RoleConflict.RejectedRepeats` | src/ice/agent.cpp:2457-2468 | a 487 that counts switches the role, and the check is repeated in it under a new id |
| `ChannelData.Wrap` | src/turn/channeldata.cpp:16-31 | the frame is channel, length, data and zero padding; a bad channel or oversized data gives nothing |
| `ChannelData.RoundTrip` | src/turn/channeldata.cpp:33-46 | unwrapping a wrapped frame gives back channel, data and extent, whatever follows |
| `StunConn.VerdictStable` | src/turn/stunconn.cpp:41-78 | a complete or invalid verdict does not change when bytes are appended |
| `StunConn.PartIncomplete` | src/turn/stunconn.cpp:41-78 | a proper part of a frame is reported incomplete |
| `StunConn.InvalidIff` | src/turn/stunconn.cpp:41-78 | with eight bytes there, a head is invalid if and only if no continuation completes a frame |
| `StunConn.ChannelFrameIsFrame` | src/turn/stunconn.cpp:62-74 | a wrapped ChannelData frame is one frame of the stream |
| `StunConn.StunConn.Feed` | src/turn/stunconn.cpp:81-92 | received bytes go behind the unread ones, compaction or not |
| `StunConn.StunConn.ReadFrame` | src/turn/stunconn.cpp:94-114 | returns the frame at the front, nothing, or garbage with one byte discarded |
| `StunConn.StunConn.TakeBuffered` | src/turn/stunconn.cpp:116-123 | hands over exactly the unread bytes |
| `StunConn.Drive` | src/turn/stunconn.cpp:81-114 | for every well-formed stream, every chunking and every mix of feed and read, the frames read are a prefix of the frames sent, and an idle read means the next has not arrived |
| `Rfc4571.FramedIff` | src/ice/agent.cpp:3381-3403 | the framing of a payload is read back exactly if its length is below 65536 |
| `Rfc4571.DeframeReads` | src/ice/agent.cpp:3533-3556 | deframing the front of a framed stream gives the complete payloads and stops inside the next |
| `Rfc4571.ReadAll` | src/ice/agent.cpp:3541-3555 | the deframing loop computes that |
| `DataConn.TurnDataConn.HandleInbound` | src/ice/agent.cpp:3453-3556 | one readable event feeds the phase in force, hands the rest of the buffer over at the bind success, and delivers every complete frame |
| `DataConn.TurnDataConn.ParseBind` | src/ice/agent.cpp:3475-3530 | phase one skips other frames and stops at the bind success or at the first incomplete or invalid head |
| `DataConn.ScanReads` | src/ice/agent.cpp:3475-3530 | on a well-formed stream phase one hands over exactly what follows the response |
| `DataConn.InboundKeeps` | src/ice/agent.cpp:3453-3556 | each event moves the connection along its stream |
| `DataConn.Drive` | src/ice/agent.cpp:3453-3556 | however response and data are split into reads, the delivered payloads are exactly the complete ones, in order |
| `DataConn.EncodingIsFrame` | src/turn/stunconn.cpp:48-60 | an encoded STUN message is one frame of the stream |
| `DataConn.BindResponseRecognised` | src/ice/agent.cpp:3486-3489 | an encoded message is taken for the bind success if and only if it is a CONNECTION-BIND success response |
| `StunMessage.TypeRoundTrip` | include/stice/stun/message.hpp:100-121 | every 12-bit method and 2-bit class survives the type field |
| `StunMessage.EncodingDelimited` | src/stun/message.cpp:210-225 | an encoding is recognised and delimited by its own length, whatever trails it |
| `StunMessage.DecodeEncoded` | src/stun/message.cpp:68-208 | decoding an encoding restores method, class, transaction id and the caller's attributes in order, between credentials in front and SOFTWARE, MESSAGE-INTEGRITY and FINGERPRINT behind, each with its own value; the caller's attributes of other types are exactly the decoded ones |
| `StunMessage.AllCarried` | src/stun/message.cpp:90-170 | what goes on the wire is the caller's attributes in order, behind USERNAME, REALM and NONCE of the credentials only and before SOFTWARE, MESSAGE-INTEGRITY and FINGERPRINT only |
| `StunMessage.OwnCarried` | src/stun/message.cpp:108-112 | so leaving out those six types gives the caller's attributes back |
| `StunMessage.TypeLayout` | include/stice/stun/message.hpp:100-110 | the bits of method and class in the type field |
| `StunMessage.FirstIntegrityDecides` | src/stun/message.cpp:227-259 | the first MESSAGE-INTEGRITY passes exactly if it is the HMAC of what precedes it with the patched length |
| `StunMessage.IntegrityHolds` | src/stun/message.cpp:119-148 | the receiver's integrity check passes under the credentials' key, or the password if they have none, if the caller added no such attribute |
| `StunMessage.FingerprintHolds` | src/stun/message.cpp:261-290 | the fingerprint check always passes, even next to a caller-supplied FINGERPRINT |
| `StunMessage.Codec.AppendAttr` | src/stun/message.cpp:79-88 | one attribute with zero padding goes behind the rest |
| `StunMessage.Codec.Encode` | src/stun/message.cpp:68-175 | the loops and in-place length patches build exactly the specified encoding, which carries the caller's attributes |
| `StunMessage.Codec.Decode` | src/stun/message.cpp:177-208 | succeeds exactly on messages whose attributes parse, with exactly those fields |
| `StunMessage.Codec.CheckIntegrity` | src/stun/message.cpp:243-259 | the scan and comparison compute the integrity verdict |
| `StunMessage.Codec.CheckFingerprint` | src/stun/message.cpp:261-290 | the scan and comparison compute the fingerprint verdict |
| `StunMessage.FindFirst` | src/stun/message.cpp:227-241 | the offset of the first attribute of a type |
| `StunMessage.FindLast` | src/stun/message.cpp:261-275 | the offset of the last one |
| `TurnClient.AtMostOnePending` | src/turn/turn.cpp:226-285 | at most one CreatePermission and one ChannelBind is pending per peer |
| `TurnClient.RegisterKeeps` | src/turn/turn.cpp:239-247 | a new transaction has been sent once |
| `TurnClient.RetransmitKeeps` | src/turn/turn.cpp:866-881 | a retransmission on UDP is one more copy of the same bytes; a reliable transport sends nothing |
| `TurnClient.Client.HandleAuthError` | src/turn/turn.cpp:52-76 | exactly which 401 and 438 responses are retried, and that a retry spends one of three between successes |
| `TurnClient.Client.FailAllocation` | src/turn/turn.cpp:78-87 | terminal failure clears what is pending and is emitted once |
| `TurnClient.Client.StartAllocate` | src/turn/turn.cpp:89-124 | one Allocate is sent from the idle state and none from any other |
| `TurnClient.Client.SendRefresh` | src/turn/turn.cpp:164-189 | no second Refresh while one is in flight |
| `TurnClient.Client.Deallocate` | src/turn/turn.cpp:191-202 | one Refresh of lifetime zero, then the terminal state |
| `TurnClient.Client.SendCreatePermission` | src/turn/turn.cpp:226-248 | sends one only if none is in flight for the peer, and marks it |
| `TurnClient.Client.SendChannelBind` | src/turn/turn.cpp:250-285 | sends one only if none is in flight for the peer, on the peer's own channel number, picked if it has none |
| `TurnClient.PickChannel` | src/turn/turn.cpp:253-264 | the number picked is another peer's exactly if all nine draws were |
| `TurnClient.Client.SendConnect` | src/turn/turn.cpp:716-739 | one CONNECT in the allocated state only |
| `TurnClient.Client.HandleAllocateResponse` | src/turn/turn.cpp:478-530 | success, authentication retry and failure of Allocate |
| `TurnClient.Client.HandleRefreshResponse` | src/turn/turn.cpp:532-559 | a success after deallocation re-arms nothing; errors retry or fail |
| `TurnClient.Client.HandleCreatePermissionResponse` | src/turn/turn.cpp:593-633 | permission granted and timed, retried, or left as it was |
| `TurnClient.Client.HandleChannelBindResponse` | src/turn/turn.cpp:635-672 | channel ready and timed, retried, kept on a 400 refresh, or failed on a first 400 |
| `TurnClient.Client.Retire` | src/turn/turn.cpp:445-475 | a transaction leaves flight and exactly its own guard is lifted |
| `TurnClient.LiftedIs` | src/turn/turn.cpp:445-475 | the guard lifted is that peer's, of that kind; every other one stays |
| `TurnClient.Client.HandleStunResponse` | src/turn/turn.cpp:423-476 | only a matching pending transaction reacts, it is never pending again, and each kind of request has the effect of its own response |
| `TurnClient.Client.Retransmit` | src/turn/turn.cpp:866-881 | the same bytes again on UDP, only the timer on TCP and TLS |
| `TurnClient.Client.TimeOut` | src/turn/turn.cpp:811-865 | an unanswered Allocate or Refresh fails the allocation; anything else only leaves flight |
| `TurnClient.Client.RunTimers` | src/turn/turn.cpp:807-885 | each due transaction is resent with a doubled interval or dropped after seven retransmissions, the others are left alone |
| `TurnClient.Client.Collect` | src/turn/turn.cpp:907-923 | exactly the stale bindings go, never one with a permission, a ready channel or a request in flight |
| `TurnClient.StaleIff` | src/turn/turn.cpp:907-923 | a binding without those is stale exactly five minutes after its refresh time |
| `TurnClient.IntervalIs` | src/turn/turn.cpp:875-875 | retransmission intervals are 200, 400 and 800 ms, and 1600 ms from then on |
| `TurnClient.TimerIs` | src/turn/turn.cpp:866-881 | a request is due again 200 ms after it is first sent and after the next intervals from then on, with nothing else of it changed |
| `TurnClient.RefreshInTime` | src/turn/turn.cpp:519-528 | a refresh is due at half the lifetime plus jitter, at least a second after the grant; before the allocation expires exactly if two seconds or more were granted |
| `TurnClient.Client.Tick` | src/turn/turn.cpp:794-942 | after a tick that did not fail the allocation everything due has a request in flight, no stale peer is left, the next wake-up is the earliest deadline, and guards and send history are kept |
| `TurnClient.NextTick` | src/turn/turn.cpp:925-941 | the earliest of all timers and refresh times, or none if nothing is due |
| `TurnClient.Session` | src/turn/turn.cpp:423-476 | after any events: one request of each kind per peer, each sent at most eight times with identical bytes on UDP and exactly once on TCP or TLS, at most three retries between successes |
| `PeerData.PeerBuffer.SendData` | src/turn/turn.cpp:301-367 | which data is rejected, buffered or sent; the order is kept exactly unless it is sent while other data waits |
| `PeerData.PeerBuffer.Flush` | src/turn/turn.cpp:561-591 | the longest front of the buffer that the transport takes is sent, the rest waits, order and stock unchanged |
| `PeerData.FlushedIsFront` | src/turn/turn.cpp:569-587 | that front ends at the first packet that is refused or cannot be wrapped |
| `PeerData.PeerBuffer.Clear` | src/turn/turn.cpp:626-632 | a failed permission drops what waits for it |
| `PeerData.DirectKeepsIff` | src/turn/turn.cpp:327-366 | a packet sent directly overtakes exactly if something waits |
| `PeerData.OvertakingRun` | src/turn/turn.cpp:301-367 | a run in which it does |
| `PeerData.OversizeBlocks` | src/turn/turn.cpp:572-586 | nothing can be flushed on a ready channel, whatever the transport takes, exactly if the front packet is longer than 65535 octets |
| `PeerData.Session` | src/turn/turn.cpp:301-367 | after any operations all accepted data was sent, waits or was dropped, once; it was sent in order unless some was sent while other data waited |
| `TcpTransport.Queue.Write` | src/net/tcp.cpp:359-435 | a drain takes a prefix of the queue, exactly as far as the kernel's results go, and compaction changes nothing |
| `TcpTransport.ControlWritten` | src/net/tcp.cpp:436-442 | writing control bytes keeps both streams in order and complete |
| `TcpTransport.DataWritten` | src/net/tcp.cpp:436-442 | data bytes are written only when no control byte waits |
| `TcpTransport.Transport.FlushSends` | src/net/tcp.cpp:346-443 | control is drained first; data moves only once the control queue is empty; the wire keeps both streams |
| `TcpTransport.Transport.Send` | src/net/tcp.cpp:445-475 | accepted unless failed, closed or above the high watermark; an accepted message is framed and queued as data |
| `TcpTransport.Transport.SendControl` | src/net/tcp.cpp:477-498 | accepted unless failed or closed; framed and queued as control |
| `TcpTransport.WireIsFramed` | src/net/tcp.cpp:445-498 | if only one queue is used the wire is the framed messages up to what is still queued |
| `TcpTransport.Receiver.Recv` | src/net/tcp.cpp:500-541 | in framed mode one complete message, or nothing, and an empty one is skipped; in raw mode what is there |
| `TcpTransport.RecvNext` | src/net/tcp.cpp:500-541 | a receive on the front of a framed stream returns the next message as soon as it is complete |
| `TcpTransport.Receive` | src/net/tcp.cpp:500-541 | for every chunking and interleaving, receive returns exactly the sent messages of 1 to 65535 bytes, in order |
| `TcpTransport.ReceiveRaw` | src/net/tcp.cpp:515-523 | in raw mode the octets returned are those that arrived, in order, up to what is buffered |
| `TcpTransport.EndToEnd` | src/net/tcp.cpp:346-541 | from sender to receiver over one queue: a prefix of the messages sent, unchanged and in order, and all of them once everything has arrived |
| `CheckScheduler.CapRespected` | src/ice/agent.cpp:4003-4035 | in the limited modes arming never takes the checks in progress above the cap in force |
| `CheckScheduler.HighestPriorityFirst` | src/ice/agent.cpp:4036-4065 | outside serial mode an eligible pair is left out only for pairs of at least its priority and only when budget or room is used up |
| `CheckScheduler.UdpFirst` | src/ice/agent.cpp:4039-4042 | in phased mode no TCP-relay pair is armed before the TCP phase |
| `CheckScheduler.ArmInto` | src/ice/agent.cpp:4035-4066 | the arming loop adds one check for each of the first eligible pairs and never a second entry for a pair |
| `CheckScheduler.Scheduler.MaybeEnterTcpPhase` | src/ice/agent.cpp:3922-3964 | the TCP phase begins exactly on timeout or when no UDP pair is left unfailed, and starts the allocations put off, once |
| `CheckScheduler.Scheduler.CountInProgress` | src/ice/agent.cpp:3909-3917 | counts the pending check entries |
| `CheckScheduler.Scheduler.ArmNextFrozenPair` | src/ice/agent.cpp:3978-4066 | one call of the scheduler: phase, allocations put off, early window, budget and the pairs armed |
| `CheckScheduler.CapIs` | src/ice/agent.cpp:4007-4015 | the cap: the configured maximum, or the size of the entry table if none is configured; in the early window the early maximum if that is larger |
| `CheckScheduler.InProgressIs` | src/ice/agent.cpp:3909-3917 | the checks in progress are the entries that are pending checks |
| `CheckScheduler.ArmedMayArm` | src/ice/agent.cpp:4037-4061 | a pair that is armed was frozen, allowed by phase and fallback mode and without an entry |
| `CheckScheduler.StrictArmsAll` | src/ice/agent.cpp:3996-3999 | strict mode arms every such pair if the table has room for them |
| `CheckScheduler.LimitedArmsToCap` | src/ice/agent.cpp:4003-4033 | the limited modes fill up to the cap exactly, while pairs and room last |
| `CheckScheduler.SerialArmsFirst` | src/ice/agent.cpp:4062-4064 | serial mode arms the first frozen allowed pair or nothing |
| `CheckScheduler.Scheduler.TriggeredCheck` | src/ice/agent.cpp:2414-2429 | a request on a pair that has not succeeded marks it pending and re-arms its entry, or makes one if there is room; otherwise nothing changes |
| `CheckScheduler.TriggeredAdds` | src/ice/agent.cpp:2414-2429 | a triggered check keeps one entry per pair and adds one check in progress exactly if the pair has no entry and there is room, or its entry is a check that is not pending |
| `CheckScheduler.ExceedsCapIff` | src/ice/agent.cpp:2414-2429 | it exceeds the cap exactly if the cap was reached and it starts a check |
| `CheckScheduler.CapCanBeExceededIff` | src/ice/agent.cpp:2414-2429 | in the limited modes that can happen if and only if the cap is below the table size; arming a full cap and one request more do it |
| `CheckScheduler.Scheduler.CreateDeferred` | src/ice/agent.cpp:3967-3977 | the servers put off get relay entries as long as there is room; they are no checks and take no pair |
| `CheckScheduler.ResolvedIs` | src/ice/agent.cpp:3967-3977 | as many as have been resolved |
| `CheckScheduler.Scheduler.AddServerEntry` | src/ice/agent.cpp:678-711 | server entries never name a pair |
| `CheckScheduler.Scheduler.EraseEntry` | src/ice/agent.cpp:961-968 | erasing keeps one entry per pair |
| `PatientFailure.SelectPair` | src/ice/agent.cpp:4074-4100 | the selected pair has the highest priority of all that succeeded, or of the TCP relays while the link sticks to them |
| `PatientFailure.EvaluateKeeps` | src/ice/agent.cpp:4118-4147 | a deadline means every evaluation since it was set found only failed pairs |
| `PatientFailure.GivesUpPatiently` | src/ice/agent.cpp:4136-4158 | giving up while connecting follows a full window of evaluations, each of a non-empty list with every pair failed |
| `PatientFailure.PatientIff` | src/ice/agent.cpp:4118-4158 | a connecting episode is patient for every sequence of evaluations if and only if it began without a deadline |
| `PatientFailure.FirstEpisodeIsPatient` | src/ice/agent.cpp:4118-4158 | before any restart it always is |
| `PatientFailure.SecondEpisodeMayBeImpatient` | src/ice/agent.cpp:4101-4116 | after one, a deadline left over from a connected episode makes it fail at once |
| `PatientFailure.IceAgent.UpdateState` | src/ice/agent.cpp:4067-4159 | one evaluation of the pair list: selection, state change and deadline; it gives up only on a non-empty list in which every pair has failed, and any other list without a usable pair clears the deadline |
| `PatientFailure.EvaluatedFollows` | src/ice/agent.cpp:4101-4158 | what an evaluation does, by the list: a nominated pair completes, another usable one connects, an unfailed or missing pair waits without a deadline, all failed starts, keeps or ends the wait |
| `PatientFailure.GivesUpOnFailure` | src/ice/agent.cpp:4118-4158 | every evaluation that ends in giving up looked at a list in which all pairs had failed |
| `Hashing.FoldAppend` | src/crypto/crypto.cpp:88-101 | one more block is one more application of the block function |
| `Hashing.AbsorbTail` | src/crypto/crypto.cpp:88-101 | bytes that do not fill the buffer leave the chaining value alone |
| `Hashing.AbsorbBlock` | src/crypto/crypto.cpp:88-101 | bytes that fill it are one block |
| `Hashing.Context.Update` | src/crypto/crypto.cpp:163-174 | an update absorbs its bytes behind what was absorbed, in any split |
| `Hashing.Context.PadZeros` | src/crypto/crypto.cpp:177-180 | the padding loop ends after the least number of zeros that leaves room for the length |
| `Hashing.Context.Final` | src/crypto/crypto.cpp:175-190 | the digest is the fold of the block function over the padded message |
| `Hashing.HashParts` | src/crypto/crypto.cpp:246-281 | hashing a message in any pieces is that fold |
| `Hashing.Hmac` | src/crypto/crypto.cpp:289-318 | HMAC of a message, with short keys extended and long keys hashed |
| `Hashing.HmacIs` | src/crypto/crypto.cpp:289-318 | it is the digest of the outer pad and the inner digest, the pads being the block key mixed bit by bit with 0x36 and 0x5c |
| `Hashing.LengthFieldReads` | src/crypto/crypto.cpp:176-182 | the length field read in its octet order is the bit length modulo 2^64 |
| `Crc.StepXor` | src/crypto/crypto.cpp:340-345 | a table step is linear over exclusive or |
| `Crc.TableStep` | src/crypto/crypto.cpp:349-350 | eight steps are one lookup of the low byte and one shift |
| `Crc.OctetStep` | src/crypto/crypto.cpp:349-350 | one table step is division by the eight bits of a byte |
| `Crc.MakeTable` | src/crypto/crypto.cpp:338-347 | the table holds the remainders of all bytes |
| `Crc.TableCrc32` | src/crypto/crypto.cpp:333-352 | the table-driven checksum is bit-at-a-time division on every byte string |
| `Crc.PolyIs` | src/crypto/crypto.cpp:343-343 | the constant is the generator polynomial of IEEE 802.3, bit for coefficient |
| `Crc.AllBitsAt` | src/crypto/crypto.cpp:348-350 | bits are divided octet by octet, least significant first |
| `Crc.BurstDetected` | src/crypto/crypto.cpp:333-352 | the checksum detects every error confined to 32 consecutive bits, wherever it lies in the message |
| `Priority.NoOverflow` | include/stice/ice/candidatepair.hpp:49-56 | the pair priority fits 64 bits for all 32-bit inputs |
| `Priority.SameAtBothEnds` | include/stice/ice/candidatepair.hpp:49-56 | both ends compute the same number when their roles are opposite |
| `Priority.OrderAsRfc` | include/stice/ice/candidatepair.hpp:49-56 | below 2^31 pairs are ordered exactly as by the formula of RFC 8445 |
| `Priority.OrderNeedsBound` | include/stice/ice/candidatepair.hpp:49-56 | at 2^31 two pairs that differ by the formula are equal as computed |
| `Priority.OrderBoundIff` | include/stice/ice/candidatepair.hpp:49-56 | priorities below a bound are all ordered as by the RFC if and only if the bound is at most 2^31 |
| `Priority.CandidatePair.UpdatePriority` | include/stice/ice/candidatepair.hpp:58-62 | stores the priority for the current role |
| `Priority.CandidateBelow31` | src/ice/candidate.cpp:59-132 | every computed candidate priority is below 2^31 |
| `Priority.UdpOutranksTcp` | src/ice/candidate.cpp:59-132 | a UDP candidate outranks every TCP candidate of its type, whatever index, family, component or offset |
| `Priority.TypeDecides` | src/ice/candidate.cpp:59-132 | on UDP the candidate type decides before everything else |
| `Priority.TypeOrder` | src/ice/candidate.cpp:59-132 | host before peer reflexive before server reflexive before relayed, whatever the other inputs |
| `Priority.PriorityIs` | src/ice/candidate.cpp:59-132 | the priorities in numbers, by the formulas of RFC 8445 and RFC 6544, for indexes and components in range |
| `Priority.SmallerIndexFirst` | src/ice/candidate.cpp:59-132 | of one type and transport the smaller index ranks higher, whatever the components |
| `Priority.SmallerComponentFirst` | src/ice/candidate.cpp:129-131 | with the same index the smaller component does |
| `Priority.DirectionOrder` | src/ice/candidate.cpp:83-106 | TCP directions: active, passive, simultaneous open for host and relayed candidates, simultaneous open, active, passive for reflexive ones |

## Left out

What the environment is taken to do, stated as preconditions or as the shape of a step:

- Socket handles and allocation pointers are not reused while a table still holds them, except in `ConnOrder.ReuseSafeIff`;
  transaction ids are fresh.
- A relay socket is bound where the server asked, or to a port no live allocation has, and reads that address only; relay
  ports start above 0, as the configuration enforces; a wrapped CONNECTION-ID counter does not meet an id that is still pending.
- `ServerTables.CurrentIsLive` takes no two live allocations to share a client address across control paths; the table key
  ignores the control transport.
- A data connection's endpoint sends nothing between its bind request and the bind success, a CONNECTION-BIND arrives on a
  connection not yet closing, and a control connection of an allocation is not bound as a data connection.
- No participant asks to poll the interrupt socket, and the sockets desired in one sync are distinct.
- The two ICE agents have distinct tiebreakers.
- HMAC-SHA1, the hash block functions and kernel results are arbitrary; time, randomness and scheduling are arguments.

Weaker than the code, or not modelled:

- Tunnel.Transparent: says nothing about output after a hard error beyond the bytes already written, because the server
  drops the rest.
- TcpTransport.Transport.FlushSends: plain TCP only; resuming an interrupted TLS write with the same length is not modelled.
- ServerTables.Tables.OnAllocate: authentication is an argument, and the response message is not built.
- StunMessage.DecodeEncoded: messages whose attributes exceed the 16-bit length field are outside it, as the codec truncates their length.
- TurnClient.Client.HandleCreatePermissionResponse: whether data waits is an argument; the buffer itself is `PeerData`.
- Hairpin.ShortcutInvisibleIff: both paths see one state of the tables; a table change between the two hops is not modelled.
- CheckScheduler.Scheduler.CreateDeferred: what a started allocation later does is not modelled, only its entry.
- CheckScheduler.Scheduler.ArmNextFrozenPair: sorting the pairs is left to the library; the list is taken as sorted.
- PollBarrier.Barrier: the sync of the slot table is the nondeterministic step that `EpollSlots.SlotsComeFromDesired` justifies.
- The lifetime of server TCP connection objects; connections are permanent here.
- Malformed TURN-over-TCP streams beyond the stability of the invalid verdict.
- Permissions, channel binding and Send indications of the server, beyond their use on the data plane.
- Candidate gathering, pairing, nomination, consent, SDP, mDNS, DNS and the multiplexers.
- TLS, the IOCP and select backends, configuration, logging, the C API and the libjuice layer.
