# Verified models of the game servers

A Dafny 4.11 model of the concurrent parts of this repository's game servers, with proofs
about every input, every run and every interleaving. `dafny verify dfyconfig.toml` checks it.

## What is modelled

**Area-of-interest replication** (`Sight*.dfy`, `ClientReplica.dfy`; the term project
server). Every player in game keeps a view list that is edited step by step when somebody
logs in, moves or leaves and when an NPC acts, and the client is told of every edit by an
ADD, MOVE or REMOVE packet. `SightServer.dfy` holds the handlers, on sessions updated in
place; `SightProtocol.dfy` says, session by session, where each takes the table;
`SightInvariant.dfy`, `SightMoves.dfy` and `SightRuns.dfy` prove that the lists agree with
distances (`SightSteps.dfy` says what those are, in coordinates and as numbers of steps;
`SightDetails.dfy` what each session hears of each event), `SightPlaces.dfy` that replaying a client's packets gives its list, and exactly
when what it shows is in its true place. Each handler runs
atomically. The order in which a hash set is walked is an argument, so results hold for
every order. The positions of the model are integers (the source's floats only ever hold
integers here), `rand()` is an argument, and `hasAvatar` stands for a non-null avatar.

The condition under which each event keeps the lists and replicas right is exact, both
ways. Four things the code does make such conditions necessary, and each has a concrete
run in `SightWitnesses.dfy` or a theorem in `SightFindings.dfy`:

- `CS_LOGIN` ends by storing the status it read at its beginning (line 157 of
  TermProjectServer.cpp with lines 62-65 of Session.cpp), which undoes the ST_INGAME of
  line 74. The parameter `Release` keeps both readings apart: under `Stores`, the code as
  it stands, no run of whole handlers ever leaves a user in game; under `Keeps`, line 157
  only releases. The exact conditions are stated for both.
- A slot's view list survives a disconnect, and the slot's next user inherits it.
- `CS_MOVE` does not ask whether the mover is in game.
- The ADD packet is built by a constructor that takes the coordinates and then sets its own
  to zero (protocol.h:233-239), and the ADD and MOVE senders refuse identifier 0, which is
  an NPC's, while the REMOVE sender does not (Session.cpp:117-153). So an object is in
  the wrong place for a client until it or the client's user takes a step, unless it stands
  at the origin; and NPC 0 is never shown but is removed, with `DropsZero` as the guard.

Session.cpp and protocol.h of that server are not UTF-8 text; the rows below cite the
places that use them.

**Stream reassembly** (`Framing.dfy`, `DispatchLoop.dfy`, `IocpReceiver.dfy`,
`AsioReceiver.dfy`, `FramingRuns.dfy`). A pure parse of length-prefixed packets, and the two
receivers proved against it on arrays: the completion-port server's compacting buffer and the
Asio server's two counters. A read is "these bytes arrived"; a dispatch appends to a log. The
compacting copy overlaps, and is taken to have the meaning of `memmove`. The completion-port
server reads sizes as signed chars, so its cursor can stand still or move back over bytes
already handed over; `DispatchLoop.dfy` follows it through any bytes and proves exactly when
the loop does what the parse says and when it ends, which is not the same.

**Peterson's lock** (`Peterson.dfy`). A transition system with one access to a shared
variable per step, the two reads of the spin condition apart, under sequential consistency.
The atomic addition to `sum` is split into a read and a write, which asks more of the lock.

**Session slots and mutexes** (`SessionLocks.dfy`, `SessionLocksProofs.dfy`,
`SessionLocksRuns.dfy`, `SessionLocksResults.dfy`, `SessionLocksOperations.dfy`,
`SessionLocksLogin.dfy`). Any number of threads run allocation, login, move, disconnect and
NPC steps of the chess server, with every lock, test, status write and unlock a step of
its own. What an operation has done when its thread is idle again is told by the locks it
has held and the statuses it has set, at turns of the interleaving.

**Smaller parts**: the timer drain (`TimerQueue.dfy`), the sector grid in real arithmetic
(`SightGrid.dfy`) and the Asio join (`AsioJoin.dfy`).

## Model

| member | source | states |
|---|---|---|
| SightRuns.AgreementOverRuns | Old/TermProjectServer/TermProjectServer/TermProjectServer.cpp:35-355 | over every run from start-up, lists and replicas are right after each event if and only if each event met its own condition when it happened |
| SightRuns.StepExact | Old/TermProjectServer/TermProjectServer/TermProjectServer.cpp:35-355 | one event of any kind keeps lists and replicas right exactly under that condition on the state before it |
| SightRuns.ViewAgreement | Old/TermProjectServer/TermProjectServer/TermProjectServer.cpp:161-325 | after any run of harmless events two users in game list each other exactly when in range, a listed NPC is in range, NPCs list nobody |
| SightPlaces.ReplicaConsistency | Old/TermProjectServer/TermProjectServer/TermProjectServer.cpp:236-324 | after any run of harmless events, replaying an in-game client's packets gives its view list and its own position, with no illegal packet but for NPC 0; an object is in its true place exactly when at the origin or refreshed since it entered the list |
| SightPlaces.PlacedStepExact | Old/TermProjectServer/TermProjectServer/TermProjectServer.cpp:244-268 | one event leaves a listed object rightly placed exactly if, newly listed, it is going to stand at the origin, or, listed before, it or the user takes a step or it was right already |
| SightPlaces.PlacedExactly | Old/TermProjectServer/TermProjectServer/TermProjectServer.cpp:796-825 | over every run of harmless events a listed object is in the wrong place exactly when off the origin with no step of its own or of the user since it entered the list |
| SightRuns.DisciplineIsEnough | Old/TermProjectServer/TermProjectServer/TermProjectServer.cpp:161-171 | if only users in game move and slots are entered with empty lists, every event is harmless and all stays right |
| ClientReplica.KnownFromLast | Old/TermProjectServer/TermProjectServer/TermProjectServer.cpp:236-303 | what a client knows of an object is what the last packet about it said |
| SightInvariant.LoginExact | Old/TermProjectServer/TermProjectServer/TermProjectServer.cpp:43-158 | a login keeps everything right exactly when leftovers of the slot are about to be introduced, or, if the older status is stored back, when nobody is near |
| SightInvariant.DisconnectKeeps | Old/TermProjectServer/TermProjectServer/TermProjectServer.cpp:887-946 | a disconnect always keeps lists and replicas right |
| SightInvariant.BehaveKeeps | Old/TermProjectServer/TermProjectServer/TermProjectServer.cpp:747-855 | an NPC's step always keeps lists and replicas right, whatever is rolled |
| SightInvariant.AcceptKeeps | Old/TermProjectServer/TermProjectServer/TermProjectServer.cpp:628-672 | accepting a connection always keeps lists and replicas right |
| SightMoves.MoveExact | Old/TermProjectServer/TermProjectServer/TermProjectServer.cpp:161-325 | a move keeps everything right exactly when the mover is in game, or nobody sees it and nobody is told a REMOVE it cannot place |
| SightMoves.MoveViewsExactly | Old/TermProjectServer/TermProjectServer/TermProjectServer.cpp:211-324 | after a move the mover's list is the fresh sight, another list holds the mover exactly when in that sight or one-sided before, and no other entry changes |
| SightMoves.MoveMirrors | Old/TermProjectServer/TermProjectServer/TermProjectServer.cpp:238-324 | a mover listed only by those it listed itself is, after the move, listed by exactly those it lists |
| SightMoves.MoverReplay | Old/TermProjectServer/TermProjectServer/TermProjectServer.cpp:236-303 | what the mover's client knows after its own MOVE and the two loops, whatever order the sets are walked in |
| SightSweep.HeartbeatConverges | Old/TermProjectServer/TermProjectServer/TermProjectServer.cpp:378-387 | one sweep over all NPCs makes an in-game player's NPC entries exactly the NPCs in range |
| SightSweep.SweepShowsTruth | Old/TermProjectServer/TermProjectServer/TermProjectServer.cpp:796-825 | an NPC listed before and after a sweep stands, for the client, where it really is |
| SightFindings.StoredStatusEmptiesTheGame | Old/TermProjectServer/TermProjectServer/TermProjectServer.cpp:47-157 | with the older status stored back, no run leaves a user in game, fills a list or shows an object |
| SightFindings.NpcZeroExact | Old/TermProjectServer/TermProjectServer/TermProjectServer.cpp:810-842 | over every run NPC 0 is never shown, and a client has been told to remove it unshown exactly when some event on its current connection met the guard below |
| SightFindings.NpcZeroStepExact | Old/TermProjectServer/TermProjectServer/TermProjectServer.cpp:282-303 | one event sends a client a REMOVE for NPC 0 exactly when the client lists it and either moves itself or, in game, sees it step out of range |
| SightWitnesses.StaleSlotBreaksAgreement | Old/TermProjectServer/TermProjectServer/TermProjectServer.cpp:887-946 | a run in which a slot's next user lists a far-away player of the slot's past |
| SightWitnesses.AddShowsOrigin | Old/TermProjectServer/TermProjectServer/TermProjectServer.cpp:135-142 | a run after which a newcomer's client has its neighbour at the origin, where it is not |
| SightWitnesses.AcceptedMoverBreaksAgreement | Old/TermProjectServer/TermProjectServer/TermProjectServer.cpp:161-171 | a run in which a connection that has not logged in moves into a player's list |
| SightWitnesses.NpcZeroFault | Old/TermProjectServer/TermProjectServer/TermProjectServer.cpp:282-303 | a run in which a client is told to remove NPC 0, which it was never shown |
| SightServer.Server.constructor | Old/TermProjectServer/TermProjectServer/TermProjectServer.cpp:456-494 | start-up: all user slots free and blank, all NPCs in game at (4, 4) |
| SightServer.Server.Accept | Old/TermProjectServer/TermProjectServer/TermProjectServer.cpp:862-885 | the lowest free user slot is accepted and prepared, its view list left alone; none if all are taken |
| SightProtocol.FirstFree | Old/TermProjectServer/TermProjectServer/TermProjectServer.cpp:862-885 | the slot found is free and no earlier one is; none found means none is free |
| SightServer.Server.ProcessPacket | Old/TermProjectServer/TermProjectServer/TermProjectServer.cpp:35-355 | handling a packet does the login or the move it asks for, other packets nothing; a right table stays right exactly when the packet was harmless |
| SightServer.Server.Login | Old/TermProjectServer/TermProjectServer/TermProjectServer.cpp:43-158 | the table after CS_LOGIN in each of the three statuses, with either meaning of the release |
| SightServer.Server.AnnounceNewbie | Old/TermProjectServer/TermProjectServer/TermProjectServer.cpp:84-113 | exactly the in-game users in range list the newcomer and are sent its ADD |
| SightServer.Server.IntroduceNewbie | Old/TermProjectServer/TermProjectServer/TermProjectServer.cpp:116-146 | the newcomer lists, and is shown in order, exactly the in-game sessions that list it |
| SightServer.Server.Disconnect | Old/TermProjectServer/TermProjectServer/TermProjectServer.cpp:887-946 | every in-game user that listed the leaver loses it and is sent a REMOVE, the slot becomes free; an NPC's identifier throws |
| SightServer.Server.ScanSight | Old/TermProjectServer/TermProjectServer/TermProjectServer.cpp:213-235 | the scan finds exactly the other in-game users whose two coordinate differences together are at most 7 |
| SightServer.Server.Move | Old/TermProjectServer/TermProjectServer/TermProjectServer.cpp:161-325 | the whole CS_MOVE, loops and packets, takes the table where the protocol's move takes it, for some order of each set |
| SightLoops.LoopsMakeTheMove | Old/TermProjectServer/TermProjectServer/TermProjectServer.cpp:236-324 | step, own packet, enter loop and leave loop compose to the one-step description of a move |
| SightServer.Server.BehaveNpc | Old/TermProjectServer/TermProjectServer/TermProjectServer.cpp:747-855 | scan, step, scan and the two loops take the table where the protocol's NPC step takes it |
| SightServer.Server.HeartBeat | Old/TermProjectServer/TermProjectServer/TermProjectServer.cpp:384-387 | one pass lets every NPC act once, in order |
| SightDetails.SweepPlaces | Old/TermProjectServer/TermProjectServer/TermProjectServer.cpp:384-387 | after a sweep every NPC has taken the one step of its own roll and nobody else has moved |
| SightDetails.MoveTells | Old/TermProjectServer/TermProjectServer/TermProjectServer.cpp:236-324 | any other session after a move: list entry and packets, by distance to the mover's new place and by the mover's old list |
| SightDetails.MoverHears | Old/TermProjectServer/TermProjectServer/TermProjectServer.cpp:176-303 | the mover after its move: place, list, and every packet of its outbox in order |
| SightDetails.BehaveTells | Old/TermProjectServer/TermProjectServer/TermProjectServer.cpp:747-855 | any session after an NPC's step: places, list entry and packets |
| SightDetails.LoginTells | Old/TermProjectServer/TermProjectServer/TermProjectServer.cpp:84-113 | any other session after a first login: the newcomer listed and added at the origin exactly if it spawns near |
| SightDetails.NewcomerHears | Old/TermProjectServer/TermProjectServer/TermProjectServer.cpp:68-146 | the newcomer after its login: status, place, list, and the ADDs it is sent in order of identifiers |
| SightDetails.ReloginTells | Old/TermProjectServer/TermProjectServer/TermProjectServer.cpp:47-66 | a login of a user in game drops it, one on a free slot does nothing |
| SightDetails.DisconnectTells | Old/TermProjectServer/TermProjectServer/TermProjectServer.cpp:887-946 | any session after a disconnect: status, list entry and packets |
| SightDetails.AcceptTells | Old/TermProjectServer/TermProjectServer/TermProjectServer.cpp:628-672 | any session after an accept: the lowest free user slot alone is prepared, at (4, 4) |
| SightServer.LiveSession.SendAddObject | Old/TermProjectServer/TermProjectServer/TermProjectServer.cpp:250-250 | an ADD at the origin is sent, or nothing for identifier 0 |
| SightServer.LiveSession.SendMovePacket | Old/TermProjectServer/TermProjectServer/TermProjectServer.cpp:256-256 | a MOVE with the true position is sent, or nothing for identifier 0 |
| SightServer.LiveSession.StepAvatar | Old/TermProjectServer/TermProjectServer/TermProjectServer.cpp:180-209 | for each direction, the new x and y from the old ones, stopping at 0 and 1999 |
| SightSteps.StepGoes | Old/TermProjectServer/TermProjectServer/TermProjectServer.cpp:762-769 | in coordinates: left is x - 1, right x + 1, up y - 1, down y + 1, and the same for each of an NPC's five rolls, stopping at the edges |
| SightSteps.NearExactly | Old/TermProjectServer/TermProjectServer/TermProjectServer.cpp:736-745 | two sessions are near exactly when both coordinate differences together are at most 7 |
| SightSteps.DistanceIsShortestWalk | Old/TermProjectServer/TermProjectServer/TermProjectServer.cpp:736-745 | the distance of two places in the world is the least number of avatar steps from one to the other |
| Framing.ParseConcat | Class/chess_client/Server_sample/main.cpp:341-355 | parsing may stop anywhere and go on from what was left over |
| Framing.ParseConserves | Class/chess_client/Server_sample/main.cpp:343-355 | the packets in order, followed by the rest, are the stream |
| Framing.ParseFrames | Class/chess_client/Server_sample/main.cpp:344-347 | every packet cut off is as long as its first byte says |
| Framing.FramedRoundTrip | Class/chess_client/Server_sample/main.cpp:51-58 | packets framed by their own first byte and laid end to end parse back to themselves |
| IocpReceiver.Receiver.Completed | Class/chess_client/Server_sample/main.cpp:339-357 | on any bytes on which its loop ends, one completed read hands over what the loop does and leaves the rest at the front; for a well-formed stream, exactly the complete packets and exactly the rest |
| IocpReceiver.Receiver.DispatchAll | Class/chess_client/Server_sample/main.cpp:341-351 | the loop, on any bytes on which it ends, takes the cursor and the handler calls where the walk below takes them |
| DispatchLoop.DispatchesExactly | Class/chess_client/Server_sample/main.cpp:341-351 | whatever arrives, the loop ends inside it having handed over exactly the parse's packets if and only if every size byte the parse meets is 1 to 127 |
| DispatchLoop.LoopEndsExactly | Class/chess_client/Server_sample/main.cpp:343-351 | the loop ends inside the received bytes exactly when its cursor neither leaves them nor comes back to where it has been |
| DispatchLoop.EndsSoon | Class/chess_client/Server_sample/main.cpp:343-351 | if it ends at all, it ends within as many turns as there are bytes |
| DispatchLoop.BackwardStepMayEnd | Class/chess_client/Server_sample/main.cpp:345-350 | bytes with a negative size on which the loop still ends, having handed over calls that are no packets |
| DispatchLoop.BackwardStepMayReturn | Class/chess_client/Server_sample/main.cpp:345-350 | bytes on which it goes back and forth for ever inside the buffer |
| DispatchLoop.BackwardStepMayStray | Class/chess_client/Server_sample/main.cpp:345-350 | bytes on which the cursor leaves the buffer |
| IocpReceiver.Receiver.Compact | Class/chess_client/Server_sample/main.cpp:353-355 | the unparsed bytes end up at the front, overlap or not |
| IocpReceiver.Receiver.Window | Class/chess_client/Server_sample/main.cpp:93-101 | the next read's window is never smaller than 74 bytes |
| IocpReceiver.Receiver.ReceiveAll | Class/chess_client/Server_sample/main.cpp:339-357 | a whole connection hands over and keeps what its reads do, for all reads on which the loop ends |
| IocpReceiver.ReceivesExactly | Class/chess_client/Server_sample/main.cpp:339-357 | however a stream is cut, every read's loop ends and together they hand over exactly the parse of the whole stream if and only if it is well formed |
| IocpReceiver.BadHeadsBreakChunking | Class/chess_client/Server_sample/main.cpp:339-357 | bytes that are not well formed on which the cut decides whether the loops end |
| AsioReceiver.Assembler.OnRead | Class/chess_client/Asio Game Server/Asio Game Server.cpp:129-167 | one read on which the loop ends goes turn by turn where the walk below goes; it dispatches the parse's packets, keeps the rest, and ends the process exactly on a size above 200 |
| AsioReceiver.EndsAtParse | Class/chess_client/Asio Game Server/Asio Game Server.cpp:133-164 | the walk, when it has ended, has handed over exactly the parse's packets |
| AsioReceiver.LoopEndsExactly | Class/chess_client/Asio Game Server/Asio Game Server.cpp:133-164 | the loop over one read ends exactly when the parse does not stop at a size byte of 0 |
| AsioReceiver.Assembler.Build | Class/chess_client/Asio Game Server/Asio Game Server.cpp:145-166 | one turn dispatches a completed packet or keeps the part, as the walk's turn does; both counters zero or 0 < held < size <= 200 |
| FramingRuns.DeliverIsParse | Class/chess_client/Server_sample/main.cpp:339-357 | reading chunk by chunk is parsing the whole stream at once |
| FramingRuns.CutsAgree | Class/chess_client/Server_sample/main.cpp:339-357 | two cuts of one stream deliver the same packets and hold the same bytes |
| FramingRuns.SmallReadsFit | Class/chess_client/Server_sample/main.cpp:93-101 | reads of up to 74 bytes always fit the window, whatever has arrived |
| FramingRuns.SentIsDelivered | Class/chess_client/Server_sample/main.cpp:103-107 | framed byte strings, concatenated and cut anyhow, parse chunk by chunk to what was sent with nothing held |
| FramingRuns.SendAll | Class/chess_client/Server_sample/main.cpp:51-58 | sending buffers through `OVER_EXP` puts their contents, by their first byte, on the wire end to end |
| FramingRuns.SendAndReceive | Class/chess_client/Server_sample/main.cpp:103-107 | buffers sent through `OVER_EXP`, cut into reads anyhow and fed to the receiver are dispatched as sent, with nothing held |
| FramingRuns.ReceiversAgree | Class/chess_client/Asio Game Server/Asio Game Server.cpp:129-167 | the pure deliveries at the two limits agree, under independent cuts, exactly unless the stricter stops at a complete packet of size 128 to 200 |
| FramingRuns.SameCallsExactly | Class/chess_client/Server_sample/main.cpp:339-357 | where the compacting server's loops end, its calls are the Asio server's packets exactly for well-formed streams |
| FramingRuns.BothReceive | Class/chess_client/Asio Game Server/Asio Game Server.cpp:129-167 | the two receivers themselves, under independent cuts on which their loops end, dispatch the same exactly for well-formed streams, and then hold the same |
| FramingRuns.AsioReceiveAll | Class/chess_client/Asio Game Server/Asio Game Server.cpp:111-169 | a whole connection dispatches the parse of its stream and ends the process exactly when that stops at a size above 200 |
| FramingRuns.OverExp.constructor | Class/chess_client/Server_sample/main.cpp:51-58 | the send buffer begins with as many bytes of the packet as its first byte says |
| Peterson.MutualExclusion | Practices/Practice 08 - Mutexless synchronization/lockless sync.cpp:103-121 | under no schedule do both threads hold the lock |
| Peterson.BoundedBypass | Practices/Practice 08 - Mutexless synchronization/lockless sync.cpp:103-121 | after a thread writes `victim` the other enters at most once before it |
| Peterson.DeadlockFreedom | Practices/Practice 08 - Mutexless synchronization/lockless sync.cpp:115-115 | of two spinning threads exactly one is blocked and the other gets in alone |
| Peterson.NoStarvation | Practices/Practice 08 - Mutexless synchronization/lockless sync.cpp:103-121 | wherever a thread stands, outside included, it holds the lock in any interleaving with two steps of its own, then seven of the other, then two of its own |
| Peterson.AloneGoesRound | Practices/Practice 08 - Mutexless synchronization/lockless sync.cpp:103-121 | with both outside, three steps of one alone bring it the lock and three more bring it out, its contribution added once |
| Peterson.NoLostUpdate | Practices/Practice 08 - Mutexless synchronization/lockless sync.cpp:65-77 | in every state the sum is the wrapped total of the completed updates, read and write being separate steps |
| Peterson.TwoWorkersTotal | Practices/Practice 08 - Mutexless synchronization/lockless sync.cpp:65-77 | two workers that have gone round once leave exactly twice the local sum |
| Peterson.TwoWorkersHaveARun | Practices/Practice 08 - Mutexless synchronization/lockless sync.cpp:65-77 | for every local sum some schedule brings both round once |
| SessionLocksResults.ReturnsAreExclusive | Class/chess_client/Server_sample/main.cpp:177-189 | if two allocations of an interleaving return the same slot, each has set it ACCEPTED under its lock just before, and a disconnect has freed it in between |
| SessionLocksResults.AllocationTakes | Class/chess_client/Server_sample/main.cpp:180-184 | an allocation that returns i has in its three turns before locked slot i, found it free, and set it to ACCEPTED with its own mark |
| SessionLocksRuns.SlotExclusivity | Class/chess_client/Server_sample/main.cpp:177-189 | under any interleaving two takings in a slot's log have a freeing between them |
| SessionLocksRuns.StatusTransitions | Class/chess_client/Server_sample/main.cpp:196-210 | from every consistent state a status only goes FREE, ACCEPTED, INGAME and back to FREE, changed by the holder of the session lock |
| SessionLocksRuns.StatusTransitionsReached | Class/chess_client/Server_sample/main.cpp:196-210 | the same for every step after every interleaving |
| SessionLocksLogin.LoginResult | Class/chess_client/Server_sample/main.cpp:194-246 | every login finds FREE and changes nothing, or INGAME and disconnects, or ACCEPTED, sets INGAME under that lock, and goes round all other users and then all other sessions, locking a view exactly where the two meet |
| SessionLocksOperations.DisconnectResult | Class/chess_client/Server_sample/main.cpp:268-292 | every disconnect finds FREE and changes nothing, or sets FREE under that lock and then has every other session's lock |
| SessionLocksOperations.MoveResult | Class/chess_client/Server_sample/main.cpp:257-262 | every CS_MOVE has every user's session lock |
| SessionLocksOperations.NpcResult | Class/chess_client/Server_sample/main.cpp:397-420 | every NPC step has the view lock of each player it edits |
| SessionLocksOperations.AllocationReturns | Class/chess_client/Server_sample/main.cpp:177-189 | every allocation returns before its thread is idle again |
| SessionLocksOperations.IdleCanBegin | Class/chess_client/Server_sample/main.cpp:191-293 | an idle thread can begin any operation at once, and is busy then |
| SessionLocksRuns.AllocationResult | Class/chess_client/Server_sample/main.cpp:177-189 | -1 is returned only if each slot was non-free at a moment of the run when the thread held its lock and looked; i only if each earlier one was, and i was free |
| SessionLocksRuns.LocksExclude | Class/chess_client/Server_sample/main.cpp:215-242 | no two threads hold the same session lock or the same view lock |
| SessionLocksRuns.LockDiscipline | Class/chess_client/Server_sample/main.cpp:215-242 | a thread asking for a session lock holds none of either kind, one asking for a view lock no other view lock; nothing else blocks |
| SessionLocksRuns.DeadlockFreedom | Class/chess_client/Server_sample/main.cpp:191-293 | in every reachable state with a busy thread some busy thread can step |
| SessionLocksRuns.NoEndlessRun | Class/chess_client/Server_sample/main.cpp:191-293 | from every consistent state, however interleaved, operations begun take a bounded number of steps in all |
| SessionLocksRuns.EverythingEnds | Class/chess_client/Server_sample/main.cpp:397-420 | from every consistent state a schedule within that bound brings all threads back to idle |
| SessionLocksRuns.EverythingEndsReached | Class/chess_client/Server_sample/main.cpp:191-293 | both hold from every state an interleaving reaches |
| SessionLocksProofs.StepKeeps | Class/chess_client/Server_sample/main.cpp:177-293 | every step keeps mutexes, held locks, warranted tests and status logs consistent |
| TimerQueue.Timers.Drain | WorldServer/Server.cpp:40-62 | one drain posts in time order, each event before the reading it was held against, leaves none earlier than the last reading, and loses none |
| TimerQueue.DrainedIsPunctual | WorldServer/Server.cpp:40-62 | everything due at the first reading is posted, nothing not due at the last one is, nothing overtakes an event left behind |
| TimerQueue.StillClockPostsTheDue | WorldServer/Server.cpp:40-62 | with a still clock exactly the due events are posted |
| TimerQueue.TopExists | WorldServer/Timeline.hpp:12-15 | under the reversed order every non-empty queue has a top |
| SightGrid.Manager.constructor | WorldServer/SightManager.cpp:7-16 | the grid built has ceil(size / sector size) columns and rows of the right sectors |
| SightGrid.Manager.BuildSectors | WorldServer/SightManager.cpp:78-100 | row i, column j of the grid is the sector (j, i) |
| SightGrid.Manager.PointLiesInItsBox | WorldServer/SightManager.cpp:115-150 | with square sectors a point on the map lies in the half-open box of its coordinates and in no other |
| SightGrid.Manager.BoxesExact | WorldServer/SightManager.cpp:115-150 | every point on the map lies in the box of its picked coordinates if and only if sectors are square |
| SightGrid.Manager.RoundTripExact | WorldServer/SightManager.cpp:115-138 | first position and back is the identity on the whole map if and only if sectors are square |
| SightGrid.Manager.LookupExact | WorldServer/SightManager.cpp:21-61 | which sector a position gives, and that it throws exactly when a clamped index is past the sectors built |
| SightGrid.Manager.LookupInPlaces | WorldServer/SightManager.cpp:53-61 | a position gives sector (iy, ix) exactly when cell ix reaches over x, cell iy over y, and both were built |
| SightGrid.Manager.LookupTotal | WorldServer/SightManager.cpp:53-61 | in a square world the lookup answers exactly for positions short of the far edges of the last sectors, and everywhere from 2000 sectors a side on |
| SightGrid.Manager.WorldCoveredExactly | WorldServer/SightManager.cpp:21-61 | every point of the world has a sector exactly when there are as many columns as rows, or 2000 of both |
| SightGrid.Manager.SameSectorSameBox | WorldServer/SightManager.cpp:53-61 | two points give the same sector exactly when they share a box |
| AsioJoin.Server.Start | Class/chess_client/Asio Game Server/Asio Game Server.cpp:198-246 | after each start every connected client has been sent exactly the introductions due to it; the process exits exactly when identifiers run out |
| AsioJoin.ExactlyOnce | Class/chess_client/Asio Game Server/Asio Game Server.cpp:220-245 | of the clients that have joined each is shown to each, itself included, exactly once |

## Left out

- Sockets, completion ports, Asio, AcceptEx: foreign calls; a read is an argument, a send appends to a log.
- Interleavings inside the term project's handlers: each handler is atomic, so `cvSight`, the acquire and release of session pointers and data races on positions and statuses are not captured.
- Nicknames, client times, hit points and the other payload of packets: they do not enter the properties proved.
- `ProceedRecv` of the term project server: it never advances the view it reads sizes from, so it is no parser.
- `AsioReceiver.Assembler.OnRead`: a read on which the loop never ends is excluded; `LoopEndsExactly` there proves that this is a size byte of 0 where the parse stops. `Process_Packet` itself, which ends the process on every packet because all its cases are commented out, is only a log entry here.
- `IocpReceiver.Receiver.Completed`: bytes on which the loop does not end, or on which its cursor leaves the bytes received, are excluded; `DispatchLoop.LoopEndsExactly` says which these are. A call of `process_packet` is a log entry holding the bytes its size names, none if the size is not positive.
- `FramingRuns.OverExp.constructor`: a negative first byte, which would make the copy's length enormous, is excluded.
- The disconnect on a read of zero bytes, and `_prev_remain` being reset when a slot is allocated again while a read is under way.
- `TimerQueue.Timers.Drain`: the heap inside `std::priority_queue` is the library's; the queue is a multiset whose top is any element not less than another. The sleep and the mutex around the drain are left out.
- `SightGrid.Manager.constructor`: real arithmetic instead of float; rounding is not modelled. Sectors are identified by their indices, as their own equality does, and `SightSector::Acquire`, `ClampCoords` and the sectors' contents are left out.
- `AsioJoin.Server.Start`: the identifier an outer `do_accept` takes before any session starts is the constructor's argument; positions in the packets and the sockets are left out, and sessions never leave.
- The view lists of the chess server: its NPC loop is the term project's with another range, and its CS_MOVE does not edit lists at all, so there is no range agreement to state for players.
- Weak memory in the Peterson workers: the fences are commented out in the source, sequential consistency is assumed.
- `WatcherWorker1`, `WatcherWorker2` (torn writes) and `AtomicWorker` (one atomic addition).
- `Practices/Practice01/main.cpp`: the branch-free absolute value would only add easy members.
- Drawing, windows, sprites, scenes, Lua and the clients.
