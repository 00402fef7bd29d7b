# Verification of the healing statistics addon

This project models the parts of the addon that are hardest to get right, and proves what they are for. Everything runs through
the same combat events: arcdps reports them from many threads, a sequencer puts them in order, an event processor keeps each
player's statistics, a client forwards them over a stream to a server, the server routes them to the peers, and windows
aggregate what was collected.

| file | what it models |
|---|---|
| `CombatEvents.dfy`, `Order.dfy`, `Bytes.dfy` | the event record, the classification of events, map orders, little-endian fields |
| `Sequencer.dfy`, `SequencerInvariant.dfy`, `SequencerSteps.dfy`, `SequencerTheorems.dfy`, `SequencerTermination.dfy`, `SequencerCallers.dfy` | `EventSequencer`: every atomic operation and lock transition is one step, threads interleave freely; the inductive invariant; what follows for every run |
| `PlayerStats.dfy`, `EventProcessor.dfy`, `Replication.dfy`, `CombatRecords.dfy` | a player's combat state machine, local and peer processing, the simulation between the two over whole runs, and what both record, told by an event's fields |
| `Wire.dfy` | the messages as bytes, in both directions |
| `Registry.dfy`, `ServerClasses.dfy`, `Frontend.dfy`, `Lifecycle.dfy` | the server's handlers as functions, the same handlers as objects that update themselves, the server's loop with all its connections, and the life of one connection |
| `Peers.dfy`, `Client.dfy`, `Session.dfy`, `Timing.dfy`, `Presence.dfy` | the client's peer reconciliation, the client's state with the three locked parts of a `Serve` round, client, stream and server together, what callbacks between the parts can change, and who is there by the callbacks made |
| `Aggregation.dfy`, `Rows.dfy`, `WindowTotals.dfy`, `AggregatedStats.dfy`, `StatsCollection.dfy`, `WindowMeaning.dfy` | filters and grouping, the rows of a window, how lists and totals agree, the caching objects, all players together, and what each number counts |
| `AnchorGraph.dfy` | windows anchored to each other, and the removal of cycles |
| `MultiLine.dfy`, `MultiLineBuffer.dfy` | SimpleIni's multi-line values: writing and reading as functions, and the loader on its buffer |

Code that changes objects, arrays or buffers is modelled by classes and methods over arrays, and each method's contract equates the new
state with a function of the old one; the properties are proved about these functions and about runs of them.

`dafny verify dfyconfig.toml` checks the whole project.

## What was found

- A removal message names a peer by instance id only, and the server removes the first peer, by name, that has the id. The server's peers
  are the client's as long as the client's peers have distinct names and ids; with a shared id the wrong peer can go
  (`Peers.SharedIdDropsTheWrongPeer`), and `Peers.RemovalHits` says exactly when a removal hits the peer that is meant.
- A round of the client's `Serve` looks at the own id, the peers and the queue under three different locks, and the callbacks run in
  between. An event can be written before the id or the peers that were known when it came (`Timing.EventOvertakesId`), and an event that
  was queued before the id changed is tagged with the new one (`Timing.IdOvertakesEvent`), under which the peers take a heal for nobody's
  (`Replication.LateHealIsLost`). `Timing.EventFollowsChecks`, `Timing.PresentStep`, `Timing.TagExact` and
  `Timing.QueuedBeforeChange` say exactly when.
- A value that is one line and starts with `<<<` is saved as it is and read back as a start tag (`MultiLine.StartTagAsValueIsLost`).
  `MultiLine.SavedRoundTrip` says exactly which values survive.
- If the first line behind a start tag is the end tag, the loader puts the line break back and the value runs on to the next NUL
  (`MultiLine.NoLinesGiveTheRest`), and a NUL is written right before the value's start (`MultiLineBuffer.WritesBeforeTheValue`).
  `MultiLine.LinesLoaded` and the contract of `MultiLineBuffer.LoadMultiLineText` say exactly when.
- A write that fails leaves `WritePending` set for good: the connection keeps queueing and is never written to again
  (`Frontend.FailedWriteStalls`), which can happen while it is still read (`Frontend.FailureIsReachable`).
- `LocalCombat` resets the peers on every combat enter event, although its log message speaks of the player's own; the model
  follows the code.
- A heal from a buff whose event also has a direct value is recorded with that value, not with the buff's amount; `CombatRecords.BuffAmount`
  says exactly when the two differ.
- In debug mode the totals count indirect skills twice, once in their own rows and once in the common row; by how much is exact
  (`WindowTotals.Conservation`).

## Model

| member | source | states |
|---|---|---|
| CombatEvents.PreProcessStable | src/EventProcessor.cpp:688-702 | the patched event is classified as before, and patching it again at the receiver changes nothing |
| CombatEvents.HealedAmountPositive | src/EventProcessor.cpp:446-454 | an event classified as healing has a nonzero amount, which the source asserts |
| CombatRecords.EventShapes | src/Common.h:13-62 | from the fields alone: a plain strike or buff is a heal exactly if its amount is positive locally and negative in area events, damage for the other sign, and so on for all four classes |
| CombatRecords.LocalRecords | src/EventProcessor.cpp:297-449 | from the fields alone: a callback adds an entry exactly if it is an own heal in combat, with its amount, time, target, skill and flags; the damage time rises exactly for later harm to or by the player and a foe; nothing else changes |
| CombatRecords.PeerRecords | src/EventProcessor.cpp:468-602 | the same at a receiver, whose entry names the target that the agent table gives, and which records nothing for an unknown one |
| CombatRecords.BuffAmount | src/PlayerStats.cpp:112-134 | a buff's heal has the buff's amount exactly if the event has no other value besides |
| CombatRecords.EnterRecords | src/PlayerStats.cpp:34-53 | the own enter event outside combat starts combat at its time with its subgroup and nothing recorded, at the sender and at a receiver |
| CombatRecords.ExitRecords | src/PlayerStats.cpp:55-78 | the own exit event ends combat if it comes after the enter, and a receiver keeps the later of its own damage time and the one told |
| CombatRecords.ForwardRecords | src/EventProcessor.cpp:343-361 | the event sent on is the callback's own, but for the glyph's mark and, in an own exit, the time of the last damage |
| CombatRecords.SenderMeans | networking/Client.cpp:182-204 | what an own callback does at the sender, and that its event is lost exactly if it is one to send and more than 5000 wait |
| CombatRecords.ReceiverMeans | src/EventProcessor.cpp:307-339 | other players' events leave the sender's copy alone, and the reset removes exactly those out of combat that nobody holds, the one being updated not among them |
| CombatRecords.PeerTouched | src/EventProcessor.cpp:468-492 | a forwarded event touches the state of the known player that the table gives, which begins empty, and nobody else's |
| SequencerInvariant.OrderingUnique | src/EventSequencer.cpp:16-68 | no two callbacks of the sequence are in progress at the same time |
| SequencerTheorems.NextInv | src/EventSequencer.cpp:15-292 | every step of every thread keeps the inductive invariant, as long as at most 256 slots are reserved |
| SequencerTheorems.RunInv | src/EventSequencer.cpp:15-292 | the invariant holds in every state of every run |
| SequencerTheorems.OrderedDelivery | src/EventSequencer.cpp:15-68 | in every state of every run the ordered callbacks so far are the first id, the next one and so on without a gap, up to `mHighestId` and at most one more that awaits its compare-exchange; they never overlap; lower ids are delivered at once, and those with id 0 by `SequencerCallers.UnorderedDelivered` |
| SequencerTheorems.DeliveredStays | src/EventSequencer.cpp:216-273 | what was delivered stays delivered: the histories only grow |
| SequencerTheorems.NoAssertionFails | src/EventSequencer.cpp:60-113 | neither compare-exchange after a callback fails, slot indices are below 256 and never shared, slots at or beyond the counter are empty, and all are empty when it is cleared |
| SequencerTheorems.NoLostWakeup | src/EventSequencer.cpp:199-292 | whenever a slot holds the id after `mHighestId`, some thread is between its compare-exchange and a point of its flush from which it will still look at that slot |
| SequencerTheorems.AtMostOnce | src/EventSequencer.cpp:15-68 | no id is delivered twice |
| SequencerTheorems.Quiescence | src/EventSequencer.cpp:15-292 | when all calls have returned, the id after `mHighestId` has never arrived, and each call was delivered exactly once unless its event waits in a slot behind that missing id |
| SequencerTheorems.QuiescenceWithoutGaps | src/EventSequencer.cpp:187-292 | when all calls have returned and their ids have no gap, every event was delivered exactly once and the slot counter is 0 |
| SequencerTheorems.FlushRankFalls | src/EventSequencer.cpp:199-292 | every step of the flusher in its loop lowers a bound or leaves the loop: each repeating pass empties a slot |
| SequencerTheorems.FlushRankKept | src/EventSequencer.cpp:199-292 | nobody else, be it another call, a beginning call or one with id 0, changes that bound meanwhile |
| SequencerTheorems.NeverStuck | src/EventSequencer.cpp:15-292 | no deadlock: in every reachable state in which some call has not returned, some call can take a step |
| SequencerTermination.CallRankFalls | src/EventSequencer.cpp:15-292 | every step of a call, retries included, lowers the call's rank, unless a weak compare-exchange fails for no reason |
| SequencerTermination.CallRankKept | src/EventSequencer.cpp:15-292 | nobody else raises it, be it another call, a beginning call or one with id 0: if `mHighestId` advances and the call has to try again, it is nearer to its own id |
| SequencerTermination.CallReturns | src/EventSequencer.cpp:15-292 | however many other calls begin and whatever they do, a call takes at most as many further steps as its rank says |
| SequencerTermination.AllCallsReturn | src/EventSequencer.cpp:15-292 | once no more calls begin, every schedule ends within a number of steps that is known from the start, and where it cannot go on all calls have returned |
| SequencerCallers.UnorderedDelivered | src/EventSequencer.cpp:17-23 | in every state of every run the callbacks with id 0 are those of the calls with id 0, in their order, each once, with the caller's arguments; such a call changes nothing else that is shared |
| SequencerCallers.CallsAsGiven | src/EventSequencer.cpp:15-28 | the calls are those that the callers began, each with the arguments passed in |
| SequencerCallers.DeliveredAsGiven | src/EventSequencer.cpp:15-68 | every callback, in sequence or at once, has the id and the arguments that some caller passed in |
| SequencerCallers.GivenIsDelivered | src/EventSequencer.cpp:15-292 | when all calls have returned, whatever was passed in was delivered once with its own arguments, unless it waits behind an id that never arrived |
| PlayerStatistics.PlayerStats.EnteredCombat | src/PlayerStats.cpp:34-53 | the new state is `EnterCombat` of the old: only outside combat, and then a fresh start |
| PlayerStatistics.PlayerStats.ExitedCombat | src/PlayerStats.cpp:55-78 | the new state and the returned damage time; no effect outside combat or for an exit not after the enter |
| PlayerStatistics.PlayerStats.ResetIfNotInCombat | src/PlayerStats.cpp:80-96 | clears everything but the subgroup, only outside combat, and says whether it did |
| PlayerStatistics.PlayerStats.DamageEvent | src/PlayerStats.cpp:98-110 | records the time, only in combat |
| PlayerStatistics.PlayerStats.HealingEvent | src/PlayerStats.cpp:112-134 | appends the heal with its amount, agent, skill and downed flag, only in combat |
| PlayerStatistics.PlayerStats.BarrierGenerationEvent | src/PlayerStats.cpp:136-158 | appends the barrier, only in combat |
| EventProcessing.LastDamageRoundTrip | src/EventProcessor.cpp:343-361 | the damage time that the sender puts into the exit event is what the receiver takes out, and no other field changes |
| EventProcessing.EventProcessor.ResetLoop | src/EventProcessor.cpp:307-339 | the erasing loop resets every peer outside combat and removes exactly those of them that nobody else references |
| EventProcessing.EventProcessor.LocalAgent | src/EventProcessor.cpp:243-295 | the own registration stores both ids, and the own deregistration exits combat at the given time; nothing else changes |
| EventProcessing.EventProcessor.LocalCombat | src/EventProcessor.cpp:297-449 | the local state, the peers and the event handed on are functions of the old state and the event |
| EventProcessing.EventProcessor.PeerCombat | src/EventProcessor.cpp:468-602 | the peer's state changes as specified, and no other peer's |
| Replication.SameEvent | src/EventProcessor.cpp:297-602 | one forwarded event, handled by sender and receiver, keeps original and copy in agreement |
| Replication.StepInv | src/EventProcessor.cpp:238-602 | every action of either side keeps the simulation |
| Replication.Simulation | networking/Client.cpp:182-204 | over whole runs with a bounded queue, changing budget mode and agent tables, and resets in between, with events that may arrive under another id as long as they concern it exactly if they concerned the sender's: unless the queue dropped something, the copy agrees with the original as of the last event applied, and with the original itself once nothing is under way |
| Replication.AgreementMeans | src/PlayerStats.cpp:34-158 | agreement is equal combat state, times and event lists, with the damage time equal always in full mode and outside combat in budget mode |
| Replication.NoOrphanedUpdate | src/EventProcessor.cpp:468-492 | an event is never applied to a peer state that a reset removed meanwhile |
| Replication.TargetMustResolve | src/EventProcessor.cpp:494-602 | the event lists stay equal if and only if the receiver resolves the heal's target to the agent that the sender saw |
| Replication.EverythingCanArrive | src/EventProcessor.cpp:468-602 | from every state there is a way for everything under way to arrive |
| Replication.DroppedPacket | networking/Client.cpp:557-568 | if a packet is dropped, original and copy still agree if and only if its event changed nothing but a damage time that need not be copied, or left the original out of combat with the copy reset |
| Replication.DroppedByKind | src/EventProcessor.cpp:297-449 | for each kind of event, exactly when it has no such effect |
| Replication.LostExitDisagrees | networking/Client.cpp:557-568 | in particular, if the packet of an effective combat exit is dropped, original and copy disagree |
| Replication.TagMatters | networking/Server.cpp:364-384 | under whichever id an event arrives, original and copy still agree if and only if it concerns that id exactly if it concerned the sender's, or the copy can do without it, or what is recorded by mistake does no harm |
| Replication.LateHealIsLost | src/EventProcessor.cpp:494-602 | in particular, an own heal in combat that arrives under an id that it does not name is lost, and original and copy disagree |
| Bytes.DecodeEncode | networking/evtc_rpc_messages.h:41-130 | little-endian numbers of any width read back |
| Bytes.EncodeDecode | networking/evtc_rpc_messages.h:41-130 | any bytes are the encoding of the number that they decode to |
| Wire.EventDecodeEncode | networking/evtc_rpc_messages.h:41-130 | the 64 bytes of an event give back all its fields |
| Wire.EventEncodeDecode | networking/evtc_rpc_messages.h:41-130 | every 64 bytes are the encoding of some event |
| Wire.RoundTrip | networking/Client.cpp:710-825 | the server decodes what the client encoded if and only if the name fits the length byte |
| Wire.OnlyEncodingsAccepted | networking/Server.cpp:55-229 | whatever the server accepts is the encoding of what it decodes to |
| Wire.FitsBuffer | networking/Client.cpp:714-825 | messages fit the 1024-byte buffer |
| Wire.WriteMessage | networking/Client.cpp:710-825 | the client's moving pointer leaves exactly the encoding in the buffer |
| Wire.MessageLayout | networking/evtc_rpc_messages.h:46-127 | every message byte by byte: version, type, ids with the lower byte first, names behind their length |
| Wire.EventLayout | networking/evtc_rpc_messages.h:10-40 | every field of an event at its place, negative numbers in two's complement |
| Wire.ServerEventRoundTrip | networking/ServerFrontendGrpc.cpp:330-346 | the client decodes the event and the sender id that the server sent |
| Order.NameOrder | networking/Server.cpp:318-348 | byte-wise string comparison is a total order |
| Order.NameLeqMeans | networking/Server.cpp:325-339 | a name comes before another exactly if it ends, or has the smaller byte, where they differ first |
| Order.FirstName | networking/Server.cpp:350-376 | a loop over a name-ordered map starts at its least name |
| Order.FirstId | networking/Client.cpp:570-623 | a loop over a map ordered by unique ids starts at its least id |
| Registry.FifoKept | networking/ServerFrontendGrpc.cpp:15-36 | accepted events are those written followed by those queued, in order, with at most one write outstanding, whatever is accepted or completed |
| ServerClasses.ConnectionContext.SendEventToClient | networking/ServerFrontendGrpc.cpp:15-36 | writes or queues the event |
| ServerClasses.ConnectionContext.HandleWriteEvent | networking/ServerFrontendGrpc.cpp:309-328 | frees the write and starts the next queued one |
| ServerClasses.ConnectionContext.ForceDisconnect | networking/ServerFrontendGrpc.cpp:38-62 | marks the connection once, and finishes it unless the server shuts down |
| ServerClasses.EvtcRpcServer.Connect | networking/ServerFrontendGrpc.cpp:208-213 | a new context joins the others, not registered yet, and nothing else changes |
| ServerClasses.EvtcRpcServer.HandleRegisterSelf | networking/Server.cpp:231-276 | table, connections and answer are those of the specification: refused, registered, or taken over from an idle holder, who is disconnected |
| ServerClasses.EvtcRpcServer.HandleSetSelfId | networking/Server.cpp:278-293 | changes the id of a registered connection and nothing else |
| ServerClasses.EvtcRpcServer.HandleAddPeer | networking/Server.cpp:295-316 | adds or overrides one peer of a registered connection |
| ServerClasses.EvtcRpcServer.ErasePeer | networking/Server.cpp:329-339 | the loop removes the peer with the least name among those with the id, or nothing |
| ServerClasses.EvtcRpcServer.HandleRemovePeer | networking/Server.cpp:318-348 | removes the peer with the least name among those with the id from a registered connection, changing nothing else |
| ServerClasses.EvtcRpcServer.Receivers | networking/Server.cpp:350-376 | the collected connections are exactly the receivers, each once |
| ServerClasses.EvtcRpcServer.HandleCombatEvent | networking/Server.cpp:350-390 | exactly the receivers accept the event, tagged with the sender's id |
| ServerClasses.EvtcRpcServer.ForceDisconnect | networking/Server.cpp:392-407 | the connection leaves the table and is disconnected |
| ServerClasses.EvtcRpcServer.HandleIncomingMessage | networking/Server.cpp:55-229 | malformed and refused messages disconnect, unknown types are ignored, handled ones refresh the time |
| Frontend.RegisterInv | networking/Server.cpp:231-276 | registration, collision and take-over keep the table and the back pointers inverse to each other |
| Frontend.TakeOverDisconnects | networking/Server.cpp:231-276 | a take-over is disconnecting the holder, as for any error, and then registering a name that is free |
| Frontend.RecentCallerKeepsName | networking/Server.cpp:231-276 | what an attempt at the name of a connection meets whose last message was just handled: refusal within the threshold's time, and later the name, with its holder disconnected and out of the table |
| Frontend.ActiveHolderKeepsName | networking/Server.cpp:231-276 | through any actions of the loop within the threshold's time after its last handled message, a connection keeps its name, unless reading the connection itself ends it |
| Frontend.IncomingInv | networking/Server.cpp:55-229 | every message, malformed, refused or handled, keeps the table and the back pointers inverse to each other |
| Frontend.ReceiversExact | networking/Server.cpp:350-376 | the receivers are the connections whose own name and id are among the sender's peers |
| Frontend.RoutingExact | networking/Server.cpp:350-390 | each receiver accepts the event exactly once, tagged with the sender's current id, and nobody else does; nothing but write queues changes |
| Frontend.StepInv | networking/ServerFrontendGrpc.cpp:104-249 | every tag that the loop handles, and shutdown at any time, keep the invariant |
| Frontend.RegistryAlways | networking/ServerFrontendGrpc.cpp:104-249 | over every run: the bijection, at most one finish, and the write queues in order |
| Frontend.DrainEmptiesTable | networking/Server.cpp:22-25 | once all read tags are retired the table is empty, which the destructor asserts |
| Frontend.DisconnectedForever | networking/ServerFrontendGrpc.cpp:38-62 | a disconnected connection never returns to the table and is not finished again |
| Frontend.StalledExactlyIfDropped | networking/ServerFrontendGrpc.cpp:178-183 | in every run, the connections with a write pending that has no tag are exactly those of which a write tag came back in vain |
| Frontend.FailedWriteStalls | networking/ServerFrontendGrpc.cpp:15-36 | from then on nothing more is ever written to such a connection, whatever the loop does; what it accepts is queued |
| Frontend.FailureIsReachable | networking/ServerFrontendGrpc.cpp:155-183 | a concrete run reaches such a state, with the loop online and the connection registered and still read |
| Lifecycle.TagsMean | networking/ServerFrontendGrpc.cpp:104-246 | a connection is read from the moment that it is there until a read comes back in vain or the shutdown begins, there is always a context for the next connection, and the first tag after `Shutdown` begins the shutdown |
| Lifecycle.FinishedOnce | networking/ServerFrontendGrpc.cpp:38-56 | over every run: until the shutdown exactly the disconnected connections have been finished, each once |
| Lifecycle.DecodeMeans | networking/Server.cpp:55-229 | ignored is what has an unknown type, a message is what was encoded from one, and everything else is malformed |
| Lifecycle.MessageMeans | networking/Server.cpp:55-229 | a message is refused exactly in the stated cases, and then its client is thrown out and nobody else touched; otherwise it is handled and the time kept |
| Lifecycle.OtherBytes | networking/Server.cpp:55-229 | bytes of an unknown type change nothing, and what is no message gets its client thrown out |
| Lifecycle.WriteTagMeans | networking/ServerFrontendGrpc.cpp:309-328 | a completed write starts the next one while the server is online, and one that failed starts nothing |
| Lifecycle.WritesDrain | networking/ServerFrontendGrpc.cpp:309-358 | as long as writes complete, everything accepted is written in order, in exactly as many completions as there are events |
| Lifecycle.ClientDecodeMeans | networking/Client.cpp:646-706 | the client delivers exactly what a server sends, skips another type, and drops the connection for anything else |
| Peers.EachCallCounts | networking/Client.cpp:570-623 | a call yields a message unless registered and known peers are equal, and each message takes one unit of work away |
| Peers.FrozenPeers | networking/Client.cpp:570-623 | with the peers frozen, exactly stale-or-changed plus missing-or-changed calls yield a message, and then the registered peers are the known ones |
| Peers.ReconcileMeans | networking/Client.cpp:570-623 | a call deregisters the first peer that is out of date, or else registers the first one not told yet |
| Peers.ReconcileTells | networking/Client.cpp:570-623 | with distinct names and ids, a message does to the server's map what the call did to the registered peers |
| Peers.RemovalHits | networking/Server.cpp:329-339 | a removal hits the meant peer if and only if no peer with a lesser name has its id |
| Peers.SharedIdDropsTheWrongPeer | networking/Server.cpp:329-339 | two peers with one id: the wrong one is removed |
| Client.EvtcRpcClient.ProcessLocalEvent | networking/Client.cpp:142-180 | the agent part: takes over the own name and id |
| Client.EvtcRpcClient.ProcessAreaEvent | networking/Client.cpp:207-270 | a new peer is added unless known, a leaving one is removed |
| Client.EvtcRpcClient.QueueEvent | networking/Client.cpp:557-568 | a combat event is dropped when more than 5000 are queued, and otherwise goes to the end |
| Client.EvtcRpcClient.TryGetPeerEvent | networking/Client.cpp:570-623 | the two loops compute one step of reconciliation, and the source's assertions in the second hold |
| Client.EvtcRpcClient.CheckSelf | networking/Client.cpp:489-502 | the part under the lock of the own information: a registration or a new id if the id has changed, and on to the peers if there is nothing to tell and the client is registered |
| Client.EvtcRpcClient.CheckPeers | networking/Client.cpp:504-507 | the part under the lock of the peers: one step of reconciliation, and on to the queue if there is nothing to tell |
| Client.EvtcRpcClient.PopEvent | networking/Client.cpp:509-519 | the part under the lock of the queue: the first event, and the end of the round |
| Client.EvtcRpcClient.ServeOnce | networking/Client.cpp:487-528 | the three parts in a row, with no callback in between: registration first, then peers, then events, and nothing while a write is outstanding |
| Client.CatchesUp | networking/Client.cpp:487-528 | left alone, the client sends exactly one message for its id, each peer to change and each event, and is then registered under its id with the known peers and an empty queue |
| Session.ClientStep | networking/Client.cpp:487-528 | every move, each part of a round being one, keeps the client's half: a conforming stream, one outstanding write, events in order |
| Session.OwnHandled | networking/Server.cpp:231-390 | the server's reaction to the next message of a conforming stream: what it then knows, and the only possible refusal |
| Session.OthersHandled | networking/Server.cpp:231-390 | other connections' messages leave this one alone or disconnect it |
| Session.StepInv | networking/Client.cpp:487-528 | the joint invariant of client, stream and server holds along every run |
| Session.StreamConforms | networking/Client.cpp:725-760 | on every run the stream is a registration and then other messages, at most one write is outstanding, and the combat events arrive in the order in which they were queued, none lost or repeated |
| Session.NoProtocolError | networking/Server.cpp:242-361 | a server that has not disconnected the client never answers "not registered yet" or "already registered" |
| Session.ServerKnowsPeers | networking/Server.cpp:295-348 | on every run with distinct peers: what the server knows, after consuming what is under way, is the image of the registered peers |
| Session.EventsReachKnownPeers | networking/Server.cpp:350-390 | when client and server have caught up, the client's events reach exactly the connections of the peers that it knows |
| Session.EventsArriveInOrder | networking/Server.cpp:350-390 | over every run, what a connection accepted from one client is, in order, a subsequence of the events that this client's queue accepted |
| Timing.PresentStep | networking/Client.cpp:487-528 | what a round has checked stays up to date exactly until a callback changes the own id behind the check of it or the peers behind theirs |
| Timing.EventFollowsChecks | networking/Client.cpp:509-519 | when an event is written, what was sent before it makes the server know the id as of the round's check of it and the peers as of the check of them; and the client has nothing left to tell if and only if these are still the present ones |
| Timing.EventsFollowPeers | networking/Client.cpp:487-528 | the same over every run with distinct peers, with the present id and peers if no callback changes them behind their checks |
| Timing.EventOvertakesId | networking/Client.cpp:142-180 | a run in which an event is written while the server knows neither the id nor the peer that the client knew before the event came |
| Timing.TagExact | networking/Client.cpp:509-519 | an event goes out under the id that the round has checked, so under the one it was queued under if and only if these are equal |
| Timing.EventsKeepTheirId | networking/Server.cpp:350-384 | on every run in which the own id changes only between two rounds and with an empty queue, each event is accepted under the id that was the client's when it was queued |
| Timing.QueuedBeforeChange | networking/Client.cpp:487-528 | while the id stays as it is, an event is tagged with the id under which it was queued if and only if that is the present one |
| Timing.IdOvertakesEvent | networking/Client.cpp:487-528 | a run in which an event queued under one id arrives under the next |
| Presence.KnownPeers | networking/Client.cpp:207-270 | after any area callbacks a player is known if and only if it has come and not left since, with the id and name of the first time that it came |
| Presence.KnownSelf | networking/Client.cpp:142-180 | after any local callbacks the own id and name are those of the last own registration |
| Presence.RunPeers | networking/Client.cpp:207-270 | over every run the client's peers are what the area callbacks make of them |
| Presence.RunSelf | networking/Client.cpp:142-180 | over every run the own id and name are what the local callbacks make of them |
| Presence.EventsReachThosePresent | networking/Server.cpp:350-390 | end to end over every run with distinct peers: once client and server have caught up, an event reaches exactly the connections of the players that have come and not left since |
| Presence.RegisteredAsOneself | networking/Server.cpp:231-276 | over every run of a player with one account name: a client that the server has read and not disconnected is registered under that name, with the id reported last |
| Aggregation.TallyAt | src/AggregatedStats.cpp:337-403 | a group's entry is the sum over the events with its key |
| Aggregation.EntriesAddUp | src/AggregatedStats.cpp:337-403 | the entries of any keys add up to the events with these keys |
| Rows.TallyConserves | src/AggregatedStats.cpp:337-403 | all entries add up to the counted events |
| Rows.SkillRowsConserve | src/AggregatedStats.cpp:446-614 | skill rows with the common indirect row add up to the counted events, in debug mode plus the indirect part |
| Rows.AgentRowsConserve | src/AggregatedStats.cpp:290-444 | agent rows add up to the counted events |
| WindowTotals.StrictWeak | src/AggregatedStats.cpp:616-687 | all eight comparators are strict weak orders |
| WindowTotals.SortedPermutes | src/AggregatedStats.cpp:616-687 | sorting gives an ordered permutation with the same sums |
| WindowTotals.Conservation | src/AggregatedStats.cpp:45-64 | total, skill list and agent list equal the events that pass the filters; the exact excess in debug mode |
| WindowTotals.AgentDetailsAgree | src/AggregatedStats.cpp:80-91 | an agent's details add up to the agent's row |
| WindowTotals.SkillDetailsAgree | src/AggregatedStats.cpp:80-91 | a skill's details add up to the skill's row |
| WindowTotals.IndirectRowDetails | src/AggregatedStats.cpp:80-91 | the common row of the indirect skills has id 0, so its details are those of skill 0: if that one is indirect they add up to the row exactly when no other indirect skill occurs, and if not they share no event with it |
| WindowTotals.KindsAddUp | src/AggregatedStats.cpp:359-373 | healing alone and barrier alone add up to both, without barrier in the one and without healing in the other |
| WindowTotals.DownedAddsUp | src/AggregatedStats.cpp:344-357 | what went to downed targets and what went to others add up to everything |
| WindowTotals.SkillListsAddUp | src/AggregatedStats.cpp:737-745 | lists of included skills without a common one add up, and an empty list includes all |
| WindowTotals.LastHealCutsNothing | src/AggregatedStats.cpp:236-288 | a window that ends with the last heal cuts off none of the events |
| WindowTotals.GroupTotalsNested | src/AggregatedStats.cpp:93-214 | group, squad, all without minions and all are nested, and the highest healing is the last row's |
| WindowTotals.PresetWindowTotal | src/AggregatedStats.cpp:93-214 | a window with a preset's filters shows the preset's row as its total |
| WindowTotals.HealSizeDoesNotWrap | src/AggregatedStats.cpp:652-667 | in every row of the skill, agent and preset lists barrier is at most healing, so the comparators' unsigned differences do not wrap around |
| WindowMeaning.GroupRowCounts | src/AggregatedStats.cpp:93-214 | each group row is the sum over the window's events that went to its agents: known non-minions of the own subgroup; of the squad, or all if the player is in none; all known non-minions; all known agents |
| WindowMeaning.EachFlag | src/AggregatedStats.cpp:700-731 | with no flag set nobody is left out, and each flag leaves out exactly its class of agents, whatever the others are |
| WindowMeaning.WindowEnd | src/AggregatedStats.cpp:236-288 | where each choice ends the window, what stands in for an unknown time, and that it never ends before the enter |
| WindowMeaning.TotalRowCounts | src/AggregatedStats.cpp:45-64 | the total is the sum over the window's events that went to agents that the filter lets pass, in debug mode with the indirect ones once more |
| WindowMeaning.SkillRowsCount | src/AggregatedStats.cpp:446-614 | exactly one row for each skill with events, unless it is indirect and debug mode off, adding up exactly its events |
| WindowMeaning.CommonRowCounts | src/AggregatedStats.cpp:446-614 | the common row is there exactly if some indirect skill has events, and adds up exactly these |
| WindowMeaning.AgentRowsCount | src/AggregatedStats.cpp:290-444 | exactly one row for each agent with events, adding up exactly these |
| WindowMeaning.SortedMeans | src/AggregatedStats.cpp:616-687 | what each of the eight orders says of a row and any later one |
| WindowMeaning.LabelsMean | src/AggregatedStats.cpp:407-444 | outside debug mode a row has the name, or the decimal digits of the id |
| WindowMeaning.HighestMeans | src/AggregatedStats.cpp:39-43 | no row of a list exceeds its highest healing, and some row has it |
| WindowMeaning.SourcesMean | src/AggregatedStats.cpp:66-78 | which rows each data source lists, and whose events they count |
| WindowMeaning.DetailsMean | src/AggregatedStats.cpp:80-91 | details of a skill are its agents under the filter, details of an agent its skills whatever the filter |
| WindowMeaning.PlayersMean | src/AggregatedStatsCollection.cpp:59-97 | the peers' list has exactly one row for each player, with name, combat time and total, and a player's details are the player's skills |
| AggregatedStatistics.AscendingIds | src/AggregatedStats.cpp:407-439 | the order in which a map is listed |
| AggregatedStatistics.AggregatedStats.GetCombatTime | src/AggregatedStats.cpp:217-234 | cached or not, the combat time; combat never ends before it began |
| AggregatedStatistics.AggregatedStats.Group | src/AggregatedStats.cpp:337-403 | the loop over the events computes the grouped sums |
| AggregatedStatistics.AggregatedStats.ListSkills | src/AggregatedStats.cpp:446-614 | the two loops compute the sorted skill rows and their maximum |
| AggregatedStatistics.AggregatedStats.ListAgents | src/AggregatedStats.cpp:290-444 | the two loops compute the sorted agent rows and their maximum |
| AggregatedStatistics.AggregatedStats.GroupSums | src/AggregatedStats.cpp:111-205 | one pass over the events computes all four presets' sums |
| AggregatedStatistics.AggregatedStats.GetSkills | src/AggregatedStats.cpp:446-614 | whatever was asked before, the skill list (of all agents or of one) equals a fresh computation, and every cache stays right |
| AggregatedStatistics.AggregatedStats.GetAgents | src/AggregatedStats.cpp:290-444 | whatever was asked before, the agent list (for all skills or for one) equals a fresh computation, and every cache stays right |
| AggregatedStatistics.AggregatedStats.GetTotal | src/AggregatedStats.cpp:45-64 | whatever was asked before, the total equals a fresh computation, and every cache stays right |
| AggregatedStatistics.AggregatedStats.GetGroupFilterTotals | src/AggregatedStats.cpp:93-214 | whatever was asked before, the four preset rows equal a fresh computation, and every cache stays right |
| AggregatedStatistics.AggregatedStats.GetStats | src/AggregatedStats.cpp:66-78 | each data source answers with the list meant for it, as computed afresh |
| AggregatedStatistics.AggregatedStats.GetDetails | src/AggregatedStats.cpp:80-91 | details of a skill are its agents, details of anything else are skills, as computed afresh; the skill id is cut to 32 bits |
| StatsCollection.PeersTotalConserves | src/AggregatedStatsCollection.cpp:31-81 | the peers' total is the sum over the players, each once, of the events that pass that player's filters |
| StatsCollection.PlayerDetailsAgree | src/AggregatedStatsCollection.cpp:83-97 | a player's details add up to the player's row |
| StatsCollection.PeersHealSizeDoesNotWrap | src/AggregatedStatsCollection.cpp:73-80 | in every row of the peers' list barrier is at most healing, so sorting it does not wrap around either |
| StatsCollection.AggregatedStatsCollection.GetStats | src/AggregatedStatsCollection.cpp:59-81 | the peers' list has a row for every player's total, other lists are the local player's; cached or not, as computed afresh |
| StatsCollection.AggregatedStatsCollection.GetTotal | src/AggregatedStatsCollection.cpp:31-57 | the peers' total is the sum of their rows, other totals are the local player's; cached or not, as computed afresh |
| StatsCollection.AggregatedStatsCollection.GetDetails | src/AggregatedStatsCollection.cpp:83-97 | a player's details are the player's skills, and nothing for an unknown player; other details are the local player's |
| AnchorGraph.IndexById | src/GUI.cpp:1261-1269 | the index holds the first window of every id but 0 |
| AnchorGraph.LookupFindsFirst | src/GUI.cpp:1261-1269 | a window is found exactly if it is the first one with the id, and none exactly if no window has it |
| AnchorGraph.FindAndResolveCyclicDependencies | src/GUI.cpp:1259-1305 | ends within one step more than there are windows, and changes only the start window's anchor, cleared exactly if the chain from there does not end |
| AnchorGraph.RevisitMeansEndless | src/GUI.cpp:1273-1290 | a chain that comes to a window twice never ends |
| AnchorGraph.ResolvedAcyclic | src/GUI.cpp:1259-1305 | no cycle is left if and only if the other windows' links form none |
| AnchorGraph.CutExactlyOnCycle | src/GUI.cpp:681-682 | given anchors without a cycle, the new link is removed exactly when it closes one |
| AnchorGraph.AcyclicForever | src/GUI.cpp:681-682 | anchors without a cycle have none after any number of edits |
| AnchorGraph.AcyclicMeansNoRing | src/GUI.cpp:1259-1305 | with ids of their own, chains come back if and only if some windows are anchored in a ring, told by their fields |
| AnchorGraph.NoRingForever | src/GUI.cpp:681-682 | windows without such a ring have none after any number of changes |
| AnchorGraph.EditMeans | src/GUI.cpp:681-682 | a change takes effect as it is unless it closes a ring, in which case the window ends up without an anchor; no other window changes |
| MultiLine.SameMeansEqualFolded | simpleini/SimpleIni.h:2653-2667 | two strings are not less than each other exactly if they are equal up to ASCII case |
| MultiLine.FoldMeans | simpleini/SimpleIni.h:2653-2657 | equal up to case is character by character equal, or the same ASCII letter |
| MultiLine.LessMeans | simpleini/SimpleIni.h:2658-2667 | one string is less exactly if it ends, or has the smaller character up to case, where they differ first |
| MultiLine.LinesRoundTrip | simpleini/SimpleIni.h:1697-1817 | the printed lines read back, and reading stops right behind the tag, if and only if the text has no carriage return and no line that looks like the tag |
| MultiLine.LinesLoaded | simpleini/SimpleIni.h:1697-1817 | the value is the lines before the tag if and only if the first line is not the tag; otherwise it is the whole rest, or none if that line is empty |
| MultiLine.NoLinesGiveTheRest | simpleini/SimpleIni.h:1772-1817 | a start tag with its end tag right behind it: the value found is the end tag and all that follows |
| MultiLine.SavedRoundTrip | simpleini/SimpleIni.h:2468-2485 | for every value, both line breaks and whatever follows: saving and loading give the value back if and only if it survives |
| MultiLine.StartTagAsValueIsLost | simpleini/SimpleIni.h:2468-2485 | the single-line value `<<<A` is saved without a tag and read back as the empty text, or as what follows it |
| MultiLine.SavedMeans | simpleini/SimpleIni.h:2468-2522 | what is written, character by character, and exactly which values are written as lines |
| MultiLine.BlanksAroundValue | simpleini/SimpleIni.h:1599-1631 | blanks before and behind a value do not belong to it |
| MultiLineBuffer.IsLess | simpleini/SimpleIni.h:2653-2667 | the comparison of two strings in the buffer |
| MultiLineBuffer.FindLineEnd | simpleini/SimpleIni.h:1758-1760 | stops at the first line break or the end of the data |
| MultiLineBuffer.SkipBreak | simpleini/SimpleIni.h:1170-1173 | one line break is one or two characters |
| MultiLineBuffer.PlaceLine | simpleini/SimpleIni.h:1762-1771 | the line is moved down and ended, and nothing behind it changes |
| MultiLineBuffer.NextLine | simpleini/SimpleIni.h:1788-1794 | along the loop the write cursor never passes the read cursor nor precedes the value's start, and text written and lines to come make up the whole |
| MultiLineBuffer.LoadMultiLineText | simpleini/SimpleIni.h:1697-1817 | the compaction in place leaves the value of the specification as a string at its start, the unread data as it was, and nothing changed before the value but the one character before it, which becomes a NUL exactly if the first line is the tag and not empty; without a value only the first character is changed |
| MultiLineBuffer.WritesBeforeTheValue | simpleini/SimpleIni.h:1802-1806 | an input for which the character before the value is overwritten |
| MultiLineBuffer.FindValueAt | simpleini/SimpleIni.h:1599-1631 | value, end of value and position behind it are those of the specification |
| MultiLineBuffer.OutputMultiLineText | simpleini/SimpleIni.h:2497-2522 | the output is the printed text, and the text itself is as before |
| MultiLineBuffer.BufferRoundTrip | simpleini/SimpleIni.h:1599-1631 | what was saved is found again in the buffer if and only if the value survives |

## Left out

- Weak memory: each atomic operation of the sequencer is one sequentially consistent step; ids are distinct and fewer than 257 slots are
  reserved between two clears (beyond that the source asserts).
- SequencerTermination.CallReturns: counts no weak compare-exchange that fails for no reason; each such failure costs two more steps, and only
  before the first id is registered. A step is a step that the call can take: that a waiting call gets a lock that is free is left to the
  scheduler.
- Implicit combat exit when the own agent is deregistered: `LocalAgent` models it, but it reads the machine's own clock and is not forwarded,
  so it is not part of the simulated runs.
- Replication.Simulation: assumes that self flags agree with instance ids, that an event concerns the id it arrives under exactly if it
  concerned the sender's own when it happened, and that the receiver's table, which may change at any time, finds the sender and the
  targets of its heals when each event is handled. `Replication.TagMatters` and `Replication.TargetMustResolve` say exactly what happens
  otherwise, and `Timing.EventsKeepTheirId` when the client's events arrive under the right id.
- Wire.EventDecodeEncode: `pad64` is a field in the model; on a server that is not built for Windows the 64th byte of the event is padding of
  the struct, which the server forwards without naming it.
- The agent table's own updates: the table is a parameter. EVTC logging, version events, skill names' registration and log calls.
- gRPC: tags are abstract tokens and a stream is an in-order channel; writing after `Finish` and a tag that never returns are not
  distinguished. Statistics counters, TLS, keepalive and the alarm that wakes the loop.
- ServerClasses.EvtcRpcServer.HandleRegisterSelf: one clock reading per message serves both the idle check and the refreshed time.
- ServerClasses.EvtcRpcServer.HandleCombatEvent: sends in the same step in which it collects the receivers; the source releases the table's
  lock in between, which only matters with several loops.
- The client's connection attempts, its disabling and its shutdown: a session is one connection from its start on. Changing the account
  name while connected is not sent by the source.
- Wrap-around of 64-bit sums, floating point (combat time is in whole milliseconds), and `ParseUInt32String`: sums are naturals and the included
  skills are a parsed list. The table of indirect skills is fixed during an aggregation.
- WindowTotals.SortedPermutes: rows that compare equal keep their order in the model; `std::sort` may give them any.
- AggregatedStatistics.AggregatedStats.Group: one loop stands for the equal loops of `GetSkills` and `GetAgents`.
- MultiLineBuffer.IsLess: `char` is signed, as with the compilers that the addon is built with; the round trip does not depend on it.
- Rows.SkillLabel: nothing is claimed of the wording of labels in debug mode and of the fixed labels of the common, total and group rows.
- Options in JSON, SimpleIni's sections, keys and comments (the comment mode of `LoadMultiLineText`), character sets and files.
- MultiLineBuffer.LoadMultiLineText: the buffer's positions are indices, so comparing pointers into different buffers does not arise.
- Drawing, hotkeys, update checks, sockets, Prometheus and the addon's entry points.
