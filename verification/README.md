# The replicated log, in Dafny

The repository replicates a log: a master takes messages, keeps them under consecutive ids and
sends each one to every secondary until it is confirmed; a secondary that connects first asks the
master for everything from its first gap on. Callers may ask for a write concern `N`, and every node
shows its messages up to the first gap. Connections break, requests time out, answers come late,
twice or never, and nodes reconnect.

The project has three layers. `Protocol.dfy` is one state machine for the whole system, with one
step per callback; the guarantees in `Theorems.dfy` are about every run of it, and `History.dfy` and
`Sessions.dfy` say, in both directions, which steps bring a state about. The local transitions
it uses are specified in the modules of the components (`AddMessageRequest`, `OutgoingRequests` with
`Timeouts`, `MasterNode`, `SecondaryNode`, the two storages), each of which comes with a class with
the fields and loops of the code, proved against that specification; that of the outgoing requests is
in `OutgoingRequestsManager`. Below them, the wire: frame and payload codecs, the
framed stream and its write queue, and the load allocator.

How the system is read:

* An io_context is a set of atomic callbacks taken in any order; the order that matters (one write
  at a time, a reserved id before its insertion, an answer after its request) is in the steps.
* In the protocol, a frame that was written stays available for ever and may be delivered any number
  of times, in any order, or never. That includes everything a TCP connection can do, and more.
* Delays and timeouts are choices: `ConnFails` and `SessionFails` may happen at any moment to a
  pending request, `ConnWrites` and `SessionWrites` also after that. `Timeouts.dfy` adds the clock.
* `sendRequest` and the handler it posts are one step in the protocol; `OutgoingRequests.dfy` keeps
  them apart.
* A concurrent map is a map with atomic insertion and lookup. Taking an id and inserting the message
  are two steps, and a chunk is read one lookup at a time with other threads in between.
* Fields named `seen`, `regSeen`, `accepted`, `confirmed`, `outstanding`, `fired` and `issued` record
  history for the statements; no decision of the modelled code depends on the first four.
* A secondary whose process is restarted is a new node with an empty storage. The master is online
  all the time, as the repository assumes; the request state machine also covers its absence.
* A write concern `N` reaches the request as `N - 1` confirmations, and as none for `N <= 1`.

Two statements that one might expect are false of the code. Both have a reachable state that refutes
them (`Counterexamples.dfy`) and the exact condition at the step that decides:

* A secondary that has caught up may never get a message: `addMessage` takes the id first and
  inserts later, so a chunk can end at an id that is only reserved, below a message whose request
  has already ended. A chunk covers a message exactly when no lower id is reserved at its last
  lookup, and a node that gets the message in no other way stores it exactly when that was so for
  the answer it accepted (`Theorems.CatchUpDeliversIff`).
* A write concern counts connections. A node that reconnects before its old connection is removed
  counts twice. The connections that confirmed a message are on different nodes exactly when none of
  them was registered while another one of the same node was, and on `N - 1` nodes exactly when this
  holds of some `N - 1` of them (`Theorems.WriteConcernOnNodes`, `DistinctNodes.EnoughNodesIff`).
  Over a whole run, all registered connections are on different nodes exactly when each old one was
  removed first (`DistinctNodes.NodesStayDistinctIff`).

The main results are `Theorems.LogsAgree`, `WriteConcern`, `WriteConcernOnNodes`,
`OperationalMeansCaughtUp`, `ChunkIsStoredWhereAsked`, `RequestLifeCycle`, `Convergence`,
`CatchUpDeliversIff` and `QuietLogsAreEqual`, `Delivery.StoredIff`, `History.AskedIff`,
`Sessions.SessionHistory` and `OperationalNodeIff`, then `AddMessageRequest.AnswersAreBounded`,
`OutgoingRequests.RequestConservation` and `OutcomeIff`, `ChunkCodec.ChunkRoundTrip`,
`SocketWriter.WriteQueue` and `IdleMeansAllSent`, `Streams.FramesArriveInOrder` and
`CallsArriveInOrder`.

`dafny verify dfyconfig.toml` checks everything.

## Model

| member | source | states |
|---|---|---|
| `Theorems.LogsAgree` | app/secondary-node/storage/storage.cpp:5-51 | Between any two states of any run a secondary loses and changes nothing; what it stores is what the master stores under the same id; what it shows is a prefix of what the master shows, and both only get longer. |
| `Theorems.WriteConcern` | app/master-node/addmessagerequest/addmessagerequest.cpp:50-99 | Whenever a message inserted with write concern N > 1 counts as confirmed, there are at least N - 1 connections, all registered at one and the same earlier moment, whose nodes store exactly that message. |
| `Theorems.WriteConcernOnNodes` | app/master-node/masternode/masternode.cpp:11-33 | Those confirming connections, all registered in one state, belong to as many nodes as they are if and only if none of them was registered while another one of the same node was; they belong to at least N - 1 nodes if and only if this holds of some N - 1 of them. Every node behind them stores the message. |
| `DistinctNodes.DistinctNodesIff` | app/master-node/masternode/masternode.cpp:137-210 | Connections registered in one state are on different nodes, then and ever after, if and only if at no registration of one of them another one of the same node was registered. |
| `DistinctNodes.EnoughNodesIff` | app/master-node/masternode/masternode.cpp:137-210 | They are on at least n nodes if and only if that holds of some n of them. |
| `Theorems.WriteConcernWhenOldRemovedFirst` | app/master-node/masternode/masternode.cpp:199-210 | If in the run a node's old connection is always removed before its new one is registered, the confirmations come from N - 1 different nodes. |
| `DistinctNodes.AcceptKeepsNodesDistinctIff` | app/master-node/masternode/masternode.cpp:137-147 | After a registration no two registered connections share a node if and only if that was so before and the node's old connection was no longer registered. |
| `DistinctNodes.NodesStayDistinctIff` | app/master-node/masternode/masternode.cpp:137-147 | In a run, registered connections always belong to different nodes if and only if before every registration the node's old connection had been removed. |
| `Counterexamples.WriteConcernNeedsOldConnectionGone` | app/master-node/masternode/masternode.cpp:199-210 | A reachable state in which a message of write concern 3 is confirmed although only one secondary exists. |
| `Theorems.AcceptedCatchesUp` | app/secondary-node/mastersession/mastersession.cpp:73-91 | Once a session has accepted an answer, its node's gap-free prefix is at least as long as the master's was at the step that finished reading that very answer: the one to that request of that connection, with those texts. |
| `Theorems.OperationalMeansCaughtUp` | app/secondary-node/secondarynode/secondarynode.cpp:84-120 | Every node that is operational, and every connection the registry shows as operational, has caught up in that sense with the answer its present session accepted. |
| `Theorems.ChunkIsStoredWhereAsked` | app/secondary-node/mastersession/mastersession.cpp:70-91 | A session's callback stores a chunk exactly when its request was an answered getMessages; that is the session's latest request and its only stored chunk, the master's text from exactly the id asked for, which is not above the first gap. Every other callback leaves the store alone. |
| `Theorems.LateAnswersAreDropped` | libs/proto/src/outcomingrequestsmanager/outcomingrequestsmanager.cpp:140-155 | Delivering an answer to an earlier request of the session, or to one already resolved, changes nothing in the whole system. |
| `Theorems.RequestLifeCycle` | app/master-node/addmessagerequest/addmessagerequest.cpp:101-142 | In every reachable state a started request is in exactly one of round in flight, waiting and finished; its counter is the number of connections with a callback due; it never ends untold; and it waits only while the secondaries it still has a status for do not meet the write concern. |
| `Theorems.WaitsIff` | app/master-node/addmessagerequest/addmessagerequest.cpp:73-99 | Between rounds a request waits if and only if its last snapshot has fewer secondaries than its write concern, and has ended if and only if not; if it waits although its caller was told of success, a secondary that confirmed has left the snapshot since. |
| `Theorems.RoundOverIsAnswered` | app/master-node/addmessagerequest/addmessagerequest.cpp:101-142 | When no round of a started request is in flight, everybody in its snapshot has answered, and its timer runs if and only if it has not ended. |
| `Theorems.RoundsStartIdle` | app/master-node/addmessagerequest/addmessagerequest.cpp:103-107 | Whenever `start` is entered no write is pending, so the branch that quits is never taken; the callback that reaches zero is that of the last outstanding connection. |
| `Theorems.CallbacksAreEnabled` | app/master-node/addmessagerequest/addmessagerequest.cpp:121-131 | In every reachable state a call that is resolved and whose callback has not run can run it; in particular its request still counts a pending write. |
| `Theorems.RequestIsNeverStuck` | app/master-node/addmessagerequest/addmessagerequest.cpp:134-141 | Until a request ends, one of its own steps is enabled: its start, its timer, the failure of one of its calls or one of its callbacks. |
| `History.AskedIff` | app/master-node/addmessagerequest/addmessagerequest.cpp:101-142 | In every run the calls of a connection are exactly those of the rounds that asked it, in order: every round, be it the first, one after a wait or one after the last callback, asks every registered connection whose answer is missing or an error, and no other. |
| `History.StepAsks` | app/master-node/addmessagerequest/addmessagerequest.cpp:101-142 | A step that starts a round sends the message, with its text, on exactly those connections; no other step sends any. |
| `History.OutcomeIff` | libs/proto/src/outcomingrequestsmanager/outcomingrequestsmanager.cpp:76-202 | A call has an outcome if and only if one step ended it so while it was pending: its timeout, the loss of its connection or the first reply. |
| `History.RepliesIff` | app/secondary-node/mastersession/mastersession.cpp:125-132 | A secondary answers exactly the messages it gets, and always with OK. |
| `History.RegisteredIff` | app/master-node/masternode/masternode.cpp:137-210 | A connection is registered if and only if it was accepted and not dropped since. |
| `History.OperationalIff` | app/master-node/masternode/masternode.cpp:217-235 | A registered connection is OPERATIONAL if and only if a ready message was taken for it. |
| `History.ServedIff` | app/master-node/masternode/masternode.cpp:212-235 | The master acknowledges exactly the ready messages it takes from registered connections, and answers `getMessages` exactly when it ends reading the chunk for it, with that chunk. |
| `History.LogIff` | app/master-node/storage/storage.cpp:5-11 | The log holds exactly the messages whose insertion happened, each with the text its id was taken for. |
| `Sessions.OperationalNodeIff` | app/secondary-node/secondarynode/secondarynode.cpp:84-120 | In every run a node is operational if and only if it has a session and a callback of that session found an answer to `getMessages`, whatever was in it. |
| `Sessions.AcceptedIff` | app/secondary-node/mastersession/mastersession.cpp:73-84 | A session has accepted an answer if and only if one of its callbacks found one. |
| `Sessions.SessionHistory` | app/secondary-node/mastersession/mastersession.cpp:64-117 | In every run all requests of a session but the last have had their callback, and each brought about the next: a failed `getMessages` another one, an answered one its acceptance and `NodeReady`, a failed `NodeReady` another one. A session rests only when it was acknowledged. |
| `Sessions.SessionIsNeverStuck` | app/secondary-node/mastersession/mastersession.cpp:64-117 | Until it is acknowledged a session that its node still owns can go on by itself: its last request can fail or its callback can run. |
| `Sessions.AsksFromItsGap` | app/secondary-node/mastersession/mastersession.cpp:64-71 | Every `getMessages` starts at what was the first gap when it was sent. |
| `Sessions.RequestOutcomeIff` | libs/proto/src/outcomingrequestsmanager/outcomingrequestsmanager.cpp:76-202 | A request of a session has an outcome if and only if one step ended it so while it was pending: its timeout, the loss of the session or the first answer, which fails it if it is of the wrong kind. |
| `Sessions.PresentSessionIff` | app/secondary-node/secondarynode/secondarynode.cpp:84-104 | A node has a session if and only if it started it and since then neither started another nor lost it. |
| `Theorems.AnswerCoversIff` | app/master-node/masternode/masternode.cpp:212-215 | When the reading of an answer ends, it covers a stored message if and only if no lower id is reserved at that moment. |
| `Theorems.Convergence` | app/master-node/addmessagerequest/addmessagerequest.cpp:59-68 | Whenever no round of a message's request is in flight, be it ended or waiting, every registered connection that has caught up belongs to a node that stores the message, provided that, unless the last round asked that connection, no lower id was reserved when the answer it accepted was read. |
| `Theorems.ReadingsAgree` | app/master-node/masternode/masternode.cpp:212-215 | If the accepted answer was read several times in the same way, a lower id was reserved at each of these readings or at none. |
| `Theorems.CatchUpDeliversIff` | app/secondary-node/mastersession/mastersession.cpp:64-92 | For a registered, caught-up connection outside the last snapshot of a message whose node was never sent the message singly and stored no other chunk covering it: the node stores the message if and only if no lower id was reserved when the accepted answer was read. |
| `Theorems.QuietLogsAreEqual` | app/master-node/masternode/masternode.cpp:237-256 | With nothing reserved and no round of any request in flight, under the same proviso for each message such a node stores and shows exactly the master's log, which is the whole of it. Requests that wait for a write concern that is out of reach do not matter. |
| `Delivery.StoredIff` | app/secondary-node/mastersession/mastersession.cpp:79-84 | In every run a node stores a message if and only if an earlier step sent it the message on its own or stored a chunk that covers it. |
| `Delivery.StepStored` | app/secondary-node/mastersession/mastersession.cpp:125-132 | One step adds a message to a store exactly in those two ways, and removes none. |
| `Counterexamples.ConvergenceNeedsGapFreeReads` | app/master-node/storage/storage.cpp:7-8 | A reachable state in which all requests have ended, nothing is reserved and the only secondary is registered and operational, yet it shows one message and the master two. |
| `Runs.RunInv` | app/master-node/addmessagerequest/addmessagerequest.cpp:50-229 | The invariant of the system (well-formedness, agreement, honest confirmations, catching up, rounds) holds in every state of every run. |
| `Runs.RunGrows` | libs/proto/src/outcomingrequestsmanager/outcomingrequestsmanager.cpp:140-202 | Between any two states of a run no log, table of requests, connection or session loses anything and no outcome changes. |
| `Runs.Provenance` | app/master-node/masternode/masternode.cpp:212-215 | Every chunk on the wire and in a resolved request was read for that very request of that connection at an earlier step, with those texts, when the master's log was the one it records. |
| `Runs.AcceptedStays` | app/secondary-node/mastersession/mastersession.cpp:79-84 | The answer a session has accepted is never replaced by another. |
| `Runs.Snapshots` | app/master-node/addmessagerequest/addmessagerequest.cpp:79 | Every snapshot a request works with, and the one it confirmed from, was the registry's membership in some earlier state. |
| `Runs.ConcernStays` | app/master-node/masternode/masternode.cpp:11-33 | A message is inserted once, and its request keeps the concern N - 1 (none for N <= 1) it was created with. |
| `Growth.StepGrows` | app/master-node/masternode/masternode.cpp:137-210 | Every one of the 22 steps keeps the state well formed and loses nothing. |
| `Agreement.StepAgrees` | app/secondary-node/mastersession/mastersession.cpp:64-132 | Every step keeps all texts, in stores, calls, scans, frames and answers, equal to the master's, and every answer fitting to the request whose id it bears. |
| `Agreement.StoreChange` | app/secondary-node/mastersession/mastersession.cpp:82-132 | A store changes by a session's callback and by an incoming message only, and exactly as these say. |
| `Confirmations.StepConfirmed` | app/master-node/addmessagerequest/addmessagerequest.cpp:174-200 | Every step keeps every OK on the wire, every ADDED status and every confirmation backed by a store that holds the message. |
| `Confirmations.RequestChange` | app/master-node/addmessagerequest/addmessagerequest.cpp:50-142 | The requests map changes only by insertion, by the start of that request or by a callback of that request. |
| `CatchUp.StepCatchesUp` | app/secondary-node/mastersession/mastersession.cpp:64-117 | Every step keeps sessions asking one request at a time from ids they reach, and operational states owed to an accepted chunk. |
| `CatchUp.CallbackCatchesUp` | app/secondary-node/mastersession/mastersession.cpp:73-91 | The callback that runs is the latest request's; the first gap never moves back, and a chunk it stores brings the store at least to where the master's gap-free log ended. |
| `Rounds.StepRounds` | app/master-node/addmessagerequest/addmessagerequest.cpp:101-142 | Every step keeps the callbacks a request counts equal to the calls whose callback has not run, and every registered connection asked in the latest round or registered after the message was stored. |
| `MasterStorage.ConcurrentChunkRead` | app/master-node/storage/storage.cpp:13-28 | Against any interleaving of reservations and insertions, a finished read returns the chunk of the log as of its last lookup; its end lies between the gap at the start of the call and the gap at its end; with nothing reserved at the start it covers every message there was. |
| `MasterStorage.ChunkIsCompleteIff` | app/master-node/storage/storage.cpp:17-25 | A chunk that starts at or below the first gap covers all stored messages above its start if and only if no id is missing below a stored one. |
| `MasterStorage.FinishedScan` | app/master-node/storage/storage.cpp:19-21 | When a lookup fails, what was collected is exactly the chunk of that moment. |
| `MasterStorage.FinishedScanReaches` | app/master-node/storage/storage.cpp:13-28 | A read cannot stop inside what was gap-free at any earlier moment. |
| `MasterStorage.ReachesIff` | app/master-node/storage/storage.cpp:5-11 | The gap-free log reaches beyond a stored message if and only if no lower id is reserved. |
| `MasterStorage.ScanReachesIff` | app/master-node/storage/storage.cpp:13-28 | A finished read that started within the gap-free log covers a stored message if and only if no lower id is reserved. |
| `MasterStorage.RunKeeps` | app/master-node/storage/storage.cpp:5-28 | Under any interleaving ids stay unique, the log only grows, and what a reader has collected stays what is stored. |
| `MasterStorage.Storage.FetchAdd` | app/master-node/storage/storage.cpp:7 | Takes an id that was never used and reserves it. |
| `MasterStorage.Storage.InsertReserved` | app/master-node/storage/storage.cpp:8 | Moves the reserved text into the log under its id, and nothing else. |
| `MasterStorage.Storage.AddMessage` | app/master-node/storage/storage.cpp:5-11 | Uninterrupted, adds the text under a fresh id and hands both back. |
| `MasterStorage.Storage.GetContiguousChunk` | app/master-node/storage/storage.cpp:13-28 | The loop returns all texts from the start id up to the first missing one. |
| `SecondaryStorage.OrderIndependence` | app/secondary-node/storage/storage.cpp:5-18 | Any two interleavings of single and batch adds drawn from one log, with any repetitions, leave the same storage if they mention the same writes. |
| `SecondaryStorage.PerformAllContents` | app/secondary-node/storage/storage.cpp:5-18 | After such writes the storage holds exactly the ids they cover, with the log's texts. |
| `SecondaryStorage.InsertAllContents` | app/secondary-node/storage/storage.cpp:14-18 | After a batch: old texts win, the batch fills the rest of its range, nothing else changes. |
| `SecondaryStorage.InsertAllKeeps` | app/secondary-node/storage/storage.cpp:5-12 | No add changes or loses a stored text. |
| `SecondaryStorage.BatchExtendsPrefix` | app/secondary-node/storage/storage.cpp:14-34 | A batch stored at or below the first gap moves the gap to its end at least, and never back. |
| `SecondaryStorage.Storage.AddMessage` | app/secondary-node/storage/storage.cpp:5-12 | The first text written under an id stays. |
| `SecondaryStorage.Storage.AddMessages` | app/secondary-node/storage/storage.cpp:14-18 | The loop performs the batch insertion from the start id on. |
| `SecondaryStorage.Storage.GetFirstGap` | app/secondary-node/storage/storage.cpp:20-34 | The loop finds the least id that is not stored. |
| `SecondaryStorage.Storage.GetContiguousChunk` | app/secondary-node/storage/storage.cpp:36-51 | The loop returns all texts from the start id up to the first missing one. |
| `Logs.GapFrom` | app/secondary-node/storage/storage.cpp:22-33 | The least id not below a given one that is absent: absent itself, everything between present. |
| `Logs.Chunk` | app/secondary-node/storage/storage.cpp:36-51 | Its length is the distance to the gap, so `getFirstGap` is the length of the chunk from 0, and its elements are the stored texts in order. |
| `Logs.BelowFirstGap` | app/secondary-node/storage/storage.cpp:20-34 | An initial segment of ids is stored if and only if it ends at or below the first gap. |
| `Logs.SubLogPrefix` | app/secondary-node/storage/storage.cpp:36-51 | A log contained in another has its gap no later and shows a prefix. |
| `AddMessageRequest.CountingIsPointwise` | app/master-node/addmessagerequest/addmessagerequest.cpp:73-99 | Because no status outlives its secondary, the count of non-error statuses equals the snapshot's size if and only if every secondary of the snapshot has answered, and if and only if nobody is left to ask. |
| `AddMessageRequest.StartKeepsValid` | app/master-node/addmessagerequest/addmessagerequest.cpp:50-71 | `start` leads from an idle request to a valid one that has ended, waits or has exactly one callback per secondary it asks; without a master it ends and tells its caller. |
| `AddMessageRequest.ReadyToStart` | app/master-node/addmessagerequest/addmessagerequest.cpp:134-141 | A new request, and one whose timer fires, has no callback and no pending write left. |
| `AddMessageRequest.AfterReplySettles` | app/master-node/addmessagerequest/addmessagerequest.cpp:124-131 | Recording a reply takes one callback off the counter, and the counter is zero if and only if it was the last. |
| `AddMessageRequest.OnReplyKeepsValid` | app/master-node/addmessagerequest/addmessagerequest.cpp:174-205 | Whatever the reply, the callback leaves a valid request, and starts a new round only as the last of its round. |
| `AddMessageRequest.StartAsks` | app/master-node/addmessagerequest/addmessagerequest.cpp:73-142 | A round's start, secondary by secondary: exactly the members whose status is missing or an error are asked, the statuses of members stay, the caller is told if and only if enough have added the message, and the request ends or waits if and only if nobody is left to ask, by whether the concern is met. Without a master the promise is broken and nobody is asked. |
| `AddMessageRequest.ReplyAsks` | app/master-node/addmessagerequest/addmessagerequest.cpp:121-205 | A callback records its reply as what it was, and no other status changes; while others are outstanding nothing else happens, except that the caller is told once the concern is met; the last one starts such a round. |
| `AddMessageRequest.OnReplyIsGrounded` | app/master-node/addmessagerequest/addmessagerequest.cpp:174-216 | No status and no confirmation appears that the recorded replies do not show. |
| `AddMessageRequest.StartIsGrounded` | app/master-node/addmessagerequest/addmessagerequest.cpp:50-99 | The same for a round's start, which may only drop statuses. |
| `AddMessageRequest.StartRemembers` | app/master-node/addmessagerequest/addmessagerequest.cpp:73-99 | A start keeps the write concern and works with the snapshot it was given. |
| `AddMessageRequest.OnReplyRemembers` | app/master-node/addmessagerequest/addmessagerequest.cpp:174-205 | A callback keeps the write concern and refers to no snapshot but the old or the new one. |
| `AddMessageRequest.HappenShrinks` | app/master-node/addmessagerequest/addmessagerequest.cpp:109-132 | With unchanged membership only the unanswered are asked, a non-error reply removes exactly its sender from them, and nothing ever puts one back. |
| `AddMessageRequest.AnswersAreBounded` | app/master-node/addmessagerequest/addmessagerequest.cpp:101-142 | With unchanged membership the non-error replies of all rounds together are at most as many as the secondaries that had not answered. |
| `AddMessageRequest.RoundsAreBounded` | app/master-node/addmessagerequest/addmessagerequest.cpp:101-142 | With unchanged membership at most that many rounds get a reply other than an error. |
| `AddMessageRequest.AddMessageRequest.SatisfiedWriteConcern` | app/master-node/addmessagerequest/addmessagerequest.cpp:207-216 | The loop counts the secondaries with status ADDED. |
| `AddMessageRequest.AddMessageRequest.AllSecondariesSuccessfullyAnswered` | app/master-node/addmessagerequest/addmessagerequest.cpp:218-229 | The loop compares the number of non-error statuses with the number of secondaries in the snapshot. |
| `AddMessageRequest.AddMessageRequest.RequestMarkSuccess` | app/master-node/addmessagerequest/addmessagerequest.cpp:144-153 | Fills the promise once; a filled one stays as it is. |
| `AddMessageRequest.AddMessageRequest.RequestMarkFailure` | app/master-node/addmessagerequest/addmessagerequest.cpp:155-172 | Breaks the promise unless it was filled. |
| `AddMessageRequest.AddMessageRequest.UpdateStatuses` | app/master-node/addmessagerequest/addmessagerequest.cpp:79-96 | The erase loop leaves exactly the statuses of present secondaries. |
| `AddMessageRequest.AddMessageRequest.SendRequestToSecondaries` | app/master-node/addmessagerequest/addmessagerequest.cpp:101-142 | Unless a write is pending, the loop asks, once each, exactly the secondaries of the snapshot whose status is missing or an error, and sets the timer if and only if there are none; a pending write stops it. |
| `AddMessageRequest.AddMessageRequest.Begin` | app/master-node/addmessagerequest/addmessagerequest.cpp:50-71 | The method refines the start of the state machine, leaves a valid request and, with a master, one that has asked exactly whom it owes a question. |
| `AddMessageRequest.AddMessageRequest.Continue` | app/master-node/addmessagerequest/addmessagerequest.cpp:59-70 | Success as soon as the concern is met, the end only when all have answered, another round otherwise. |
| `AddMessageRequest.AddMessageRequest.OnResponse` | app/master-node/addmessagerequest/addmessagerequest.cpp:124-131 | The method refines the whole callback, up to the next round, and leaves a valid request. |
| `RequestTable.TableSteps` | libs/proto/src/outcomingrequestsmanager/outcomingrequestsmanager.cpp:140-202 | Issuing, resolving and resolving all keep issued requests split exactly into pending and resolved, and never change an outcome. |
| `OutgoingRequests.StepAccounted` | libs/proto/src/outcomingrequestsmanager/outcomingrequestsmanager.cpp:28-116 | Every event keeps each call in exactly one place, under one id, and each unwritten request waiting for its delay. |
| `OutgoingRequests.RequestConservation` | libs/proto/src/outcomingrequestsmanager/outcomingrequestsmanager.cpp:28-202 | In every run from the start, under any interleaving of sends, posted handlers, late writes, responses, timeouts, a broken socket and destruction: a call is queued, orphaned or issued and only one of these, under one id; an issued request is pending or resolved and only one of these; after destruction nothing is pending; and in every continuation outcomes are final and ids keep their calls. |
| `OutgoingRequests.OutcomeIff` | libs/proto/src/outcomingrequestsmanager/outcomingrequestsmanager.cpp:76-202 | In every run a request has an outcome if and only if the one event came, while it was pending, that ends it so: TIMEOUT by its timer, the answer or BAD_RESPONSE_FRAME by a response, PEER_DISCONNECTED by the end of its delay without a socket, the loss of the socket or the end of the manager. |
| `OutgoingRequests.WrittenIff` | libs/proto/src/outcomingrequestsmanager/outcomingrequestsmanager.cpp:93-115 | A request's frame goes to the socket if and only if its delay was over while manager and socket were there. |
| `OutgoingRequestsManager.Context.Invalidate` | libs/proto/src/outcomingrequestcontext/abstractoutcomingrequestcontext.h:37-60 | Resolves the promise with the reason unless it is resolved. |
| `OutgoingRequestsManager.Context.OnResponseReceived` | libs/proto/src/outcomingrequestcontext/getmessages.cpp:17-32 | Resolves an unresolved promise with the decoded payload, or as a bad frame when it does not decode. |
| `OutgoingRequestsManager.Manager.OpenIff` | libs/proto/src/outcomingrequestsmanager/outcomingrequestsmanager.cpp:28-202 | In every state the class can be in, a promise is open if and only if its posted handler has not run or its request is in the table; once the manager is destroyed, if and only if the former. |
| `OutgoingRequestsManager.Manager.SendRequest` | libs/proto/src/outcomingrequestsmanager/outcomingrequestsmanager.cpp:33-53 | Refines the call: the context is handed over and its handler posted, and no promise changes. |
| `OutgoingRequestsManager.Manager.SendRequestImpl` | libs/proto/src/outcomingrequestsmanager/outcomingrequestsmanager.cpp:55-91 | Refines the step: the context gets the next id, which no other ever had, its timer is armed for the response timeout from now, it becomes pending, and the pieces that the delayed write will send are the frame of the request under that id. |
| `OutgoingRequestsManager.Manager.RunPosted` | libs/proto/src/outcomingrequestsmanager/outcomingrequestsmanager.cpp:33-53 | The posted handler refines its step: a live manager sends, a destroyed one leaves the promise failed with PEER_DISCONNECTED. |
| `OutgoingRequestsManager.Manager.OnDelayOver` | libs/proto/src/outcomingrequestsmanager/outcomingrequestsmanager.cpp:93-115 | The delayed write refines its step: nothing when the manager is destroyed, the promise failed with PEER_DISCONNECTED when the socket is invalidated, the frame written otherwise; no other promise changes. |
| `OutgoingRequestsManager.Manager.OnTimeout` | libs/proto/src/outcomingrequestsmanager/outcomingrequestsmanager.cpp:76-88 | Refines the timer's handler: the promise of that id, if it is still pending, is failed with TIMEOUT, and no other changes. |
| `OutgoingRequestsManager.Manager.OnSocketInvalidated` | libs/proto/src/outcomingrequestsmanager/outcomingrequestsmanager.cpp:135-137 | Refines the loss of the socket: every pending promise, and no other, is failed with PEER_DISCONNECTED. |
| `OutgoingRequestsManager.Manager.Destroy` | libs/proto/src/outcomingrequestsmanager/outcomingrequestsmanager.cpp:28-31 | Refines the destruction: every pending promise, and no other, is failed with PEER_DISCONNECTED. |
| `OutgoingRequestsManager.Manager.OnResponseReceived` | libs/proto/src/outcomingrequestsmanager/outcomingrequestsmanager.cpp:140-155 | Refines the response: exactly the promise pending under that id is fulfilled with the decoded payload, or failed with BAD_RESPONSE_FRAME when it does not decode, and its timer cancelled; an id that is not pending changes nothing. |
| `OutgoingRequestsManager.Manager.InvalidatePendingRequest` | libs/proto/src/outcomingrequestsmanager/outcomingrequestsmanager.cpp:177-190 | Fails exactly the pending context of that id and cancels its timer; every other promise stays as it is. |
| `OutgoingRequestsManager.Manager.InvalidateAllPendingRequests` | libs/proto/src/outcomingrequestsmanager/outcomingrequestsmanager.cpp:192-202 | The loop fails every pending context once; then the table and the timers are empty. |
| `Timeouts.StepTimely` | libs/proto/src/outcomingrequestsmanager/outcomingrequestsmanager.cpp:76-88 | Every event leaves exactly the pending requests with an armed timer, due one response timeout after their id was given. |
| `Timeouts.NobodyWaitsTooLong` | libs/proto/src/outcomingrequestsmanager/outcomingrequestsmanager.cpp:76-115 | In every run from the start in which timers fire as they fall due, exactly the pending requests have a timer and none is pending later than the response timeout after it was issued. |
| `Timeouts.RunsWithoutClock` | libs/proto/src/outcomingrequestsmanager/outcomingrequestsmanager.cpp:55-116 | The events of a run with timers are a run of the manager without them, so whatever holds of every interleaving holds of the clocked manager. |
| `Timeouts.ReachedIsSound` | libs/proto/src/outcomingrequestsmanager/outcomingrequestsmanager.cpp:28-202 | In every state that the class can be in, each call is in exactly one place and exactly the pending requests have a timer. |
| `MasterNode.NumbersAreNotReused` | app/master-node/masternode/masternode.cpp:137-235 | Each operation keeps the registry valid; the next number is not in use, a dropped one is gone, and a ready message for it is without effect. |
| `MasterNode.DropIsFinal` | app/master-node/masternode/masternode.cpp:199-235 | After any sequence of registrations, removals and ready messages a connection that was dropped is still out of the registry. |
| `MasterNode.AbsentStaysOut` | app/master-node/masternode/masternode.cpp:142-145 | Any number that was given out and is not registered stays out of the registry under any such sequence. |
| `MasterNode.MasterNode.AddSecondaryImpl` | app/master-node/masternode/masternode.cpp:142-145 | Registers a connection with its endpoint under a fresh number, REGISTERING and without a name; the others stay as they are. |
| `MasterNode.MasterNode.OnInvalidated` | app/master-node/masternode/masternode.cpp:199-210 | Removes exactly that connection, if it is there; all that is known of the others stays. |
| `MasterNode.MasterNode.OnIncomingSecondaryNodeReady` | app/master-node/masternode/masternode.cpp:217-235 | A registered connection gets the name, becomes OPERATIONAL and is answered; every other entry stays; for one that is not registered nothing happens. |
| `MasterNode.MasterNode.SecondariesSnapshot` | app/master-node/masternode/masternode.cpp:237-256 | The loop lists every registered connection once, REGISTERING ones included, with its number, name, state and endpoint. |
| `SecondaryNode.SecondaryNode.RunMasterSession` | app/secondary-node/secondarynode/secondarynode.cpp:92-104 | A new session replaces the old one, the node stops being operational, and asks from its first gap. |
| `SecondaryNode.SecondaryNode.DisconnectMasterSession` | app/secondary-node/secondarynode/secondarynode.cpp:84-90 | No session, not operational, storage untouched. |
| `SecondaryNode.SecondaryNode.AskForMessages` | app/secondary-node/mastersession/mastersession.cpp:64-71 | Asks from what is the first gap now. |
| `SecondaryNode.SecondaryNode.OnMessagesReceived` | app/secondary-node/mastersession/mastersession.cpp:73-91 | After an answer, whatever it holds, the batch fills the missing part of its range from the gap that was asked for, the node is operational and announces itself; after a failure it asks again, from the present gap, and nothing else changes. |
| `SecondaryNode.SecondaryNode.OnReadyAnswered` | app/secondary-node/mastersession/mastersession.cpp:93-117 | Announces itself again after a failure and does nothing after an acknowledgement. |
| `SecondaryNode.SecondaryNode.OnIncomingAddMessage` | app/secondary-node/mastersession/mastersession.cpp:125-132 | Stores the message before accepting it. |
| `Bytes.SizeRoundTrip` | libs/proto/src/deserialization/bufferdeserializer_impl.h:9-19 | A 64-bit number is read back from its eight bytes, and eight bytes decode to a number if and only if they are its image. |
| `Bytes.LittleEndian` | libs/proto/src/serialization/buffersequenceserializer_impl.h:7-12 | The eight bytes of a number are its base-256 digits, lowest first, as on the little-endian machines the code runs on. |
| `Serialization.BufferDeserializer.AtEnd` | libs/proto/src/deserialization/bufferdeserializer.cpp:12-15 | True exactly when nothing is left; a null buffer has nothing left. |
| `Serialization.BufferDeserializer.Leftover` | libs/proto/src/deserialization/bufferdeserializer.cpp:17-28 | All that is left, or null for a null buffer. |
| `Serialization.BufferDeserializer.GetMemoryAndAdvance` | libs/proto/src/deserialization/bufferdeserializer.cpp:30-43 | Splits that many bytes off the front, or fails without moving when there are fewer or the buffer is null. |
| `Serialization.BufferDeserializer.DeserializeByte` | libs/proto/src/deserialization/bufferdeserializer_impl.h:9-19 | Takes one byte off the front; fails without moving at the end. |
| `Serialization.BufferDeserializer.DeserializeSize` | libs/proto/src/deserialization/bufferdeserializer_impl.h:9-19 | What was left is the image of the result followed by what is left now; fails without moving otherwise. |
| `Serialization.BufferDeserializer.DeserializeRest` | libs/proto/src/deserialization/bufferdeserializer_impl.h:21-40 | All that is left, possibly nothing; fails for a null buffer only. |
| `Serialization.BufferDeserializer.DeserializeString` | libs/proto/src/deserialization/bufferdeserializer_impl.h:42-53 | A string of the given length followed by what is left now; fails without moving otherwise. |
| `Serialization.BufferSequence.SerializeMemory` | libs/proto/src/serialization/buffersequenceserializer.cpp:9-15 | Appends the bytes to the frame's contents; null memory appends nothing. |
| `Serialization.BufferSequence.SerializeSize` | libs/proto/src/serialization/buffersequenceserializer_impl.h:7-12 | Appends the eight bytes of a number. |
| `ChunkCodec.ChunkRoundTrip` | libs/proto/src/response/getmessages.cpp:33-87 | A payload decodes to a list if and only if it is the encoding of that list, for lists and strings of any length that fits 64 bits. |
| `ChunkCodec.TextsRoundTrip` | libs/proto/src/response/getmessages.cpp:46-66 | The decoder's loop accepts exactly that many sized strings with nothing behind them. |
| `ChunkCodec.FromPayload` | libs/proto/src/response/getmessages.cpp:33-67 | The loop over the cursor computes that decoding; a null payload is refused. |
| `ChunkCodec.ReadCount` | libs/proto/src/response/getmessages.cpp:37-42 | What the payload decodes to is decided by the count and the rest; without a count it does not decode. |
| `ChunkCodec.ReadText` | libs/proto/src/response/getmessages.cpp:48-60 | One turn takes off exactly the first string of the decoding; it fails only if the rest does not decode. |
| `ChunkCodec.WriteText` | libs/proto/src/response/getmessages.cpp:81-85 | One turn appends the size and the contents of one string. |
| `ChunkCodec.SerializePayload` | libs/proto/src/response/getmessages.cpp:69-87 | The loop appends exactly the encoding of the list. |
| `ChunkCodec.CalcSizes` | libs/proto/src/response/getmessages.cpp:12-21 | The sizes match their strings one by one. |
| `Frames.FramesAreDistinct` | libs/proto/src/frame/frame.cpp:39-124 | Different requests have different frames, so have different responses, and no frame is both a request and a response. |
| `Frames.RequestLayout` | libs/proto/src/frame/frame.cpp:99-111 | Byte 0 is 0, then eight bytes of id, then the operation: 0 add, 1 get, 2 ready, 3 ping; then the payload. |
| `Frames.ResponseLayout` | libs/proto/src/frame/frame.cpp:113-124 | Byte 0 is 1, then eight bytes of id, then the payload. |
| `Endpoint.CallLayout` | libs/proto/src/endpoint.cpp:105-171 | The frame of every call byte by byte, with the operation's code and the layout of its payload. |
| `Endpoint.AnswerLayout` | libs/proto/src/response/addmessage.cpp:14-43 | The frame of every answer byte by byte, status 0 for OK and 1 for refusal included, and which operation it answers. |
| `Serialization.SizedLayout` | libs/proto/src/response/getmessages.cpp:69-87 | In a list of sized strings each string lies behind its length, right behind the strings before it. |
| `Frames.ParseEventType` | libs/proto/src/frame/frame.cpp:7-37 | Succeeds exactly on frames whose first byte is one of the two event types. |
| `Frames.ParseRequestFrame` | libs/proto/src/frame/frame.cpp:39-78 | Returns a request if and only if the bytes are that request's frame; unknown operations are refused. |
| `Frames.ParseResponseFrame` | libs/proto/src/frame/frame.cpp:80-97 | Returns a response if and only if the bytes are that response's frame. |
| `Frames.IncomingRequest` | libs/proto/src/incomingrequestsmanager/incomingrequestsmanager.cpp:67-88 | The manager of incoming requests reacts to exactly the request frames. |
| `Frames.IncomingResponse` | libs/proto/src/outcomingrequestsmanager/outcomingrequestsmanager.cpp:157-175 | The manager of outgoing requests reacts to exactly the response frames. |
| `Frames.ConstructRequestHeader` | libs/proto/src/frame/frame.cpp:99-111 | The pieces, followed by any payload, are the frame of that request. |
| `Frames.ConstructResponseHeader` | libs/proto/src/frame/frame.cpp:113-124 | The pieces, followed by any payload, are the frame of that response. |
| `Endpoint.OnIncomingFrame` | libs/proto/src/endpoint.cpp:199-282 | The signal of a call is emitted, under its id, if and only if the bytes are that call's frame. |
| `Endpoint.RequestFromPayload` | libs/proto/src/endpoint.cpp:206-281 | A payload of an operation becomes a call if and only if it is that call's payload. |
| `Endpoint.ResponseFromPayload` | libs/proto/src/outcomingrequestcontext/addmessage.cpp:20-35 | A pending request of a kind accepts an answer if and only if the payload is that answer's and of that kind. |
| `Endpoint.AddMessageFromPayload` | libs/proto/src/request/addmessage.cpp:15-26 | Succeeds with an id and a text if and only if the payload is the id followed by the text. |
| `Endpoint.SizeFromPayload` | libs/proto/src/request/getmessages.cpp:13-23 | Succeeds with a number if and only if the payload is its eight bytes and no more. |
| `Endpoint.ReadyFromPayload` | libs/proto/src/request/secondarynodeready.cpp:15-25 | The name is the whole payload, the empty one included. |
| `Endpoint.StatusFromPayload` | libs/proto/src/response/addmessage.cpp:14-43 | Succeeds with a status if and only if the payload is that one byte. |
| `Endpoint.ChunkFromPayload` | libs/proto/src/outcomingrequestcontext/getmessages.cpp:17-32 | Succeeds with a chunk if and only if the payload is its encoding. |
| `Endpoint.ReadyAckFromPayload` | libs/proto/src/response/secondarynodeready.cpp:13-21 | Accepts an empty payload, null or not, and nothing else. |
| `Endpoint.FrameOfRequest` | libs/proto/src/endpoint.cpp:105-171 | The pieces put together for a call are its frame. |
| `Endpoint.FrameOfResponse` | libs/proto/src/incomingrequestsmanager/incomingrequestsmanager.cpp:101-107 | The pieces put together for an answer are its frame. |
| `Endpoint.FramesDetermineCalls` | libs/proto/src/frame/frame.cpp:39-124 | A request frame determines its id and call; a response frame its id and, given the kind, its answer; and no frame is taken for both. |
| `Endpoint.ParseIsDecoding` | libs/proto/src/response/getmessages.cpp:33-67 | The protocol's parsing of answers is the decoding of their bytes: a chunk never passes for an acknowledgement, nor the other way round. |
| `FrameReader.SegmentationIsInvisible` | libs/proto/src/socketwrapper/socketwrapper.cpp:103-159 | Two ways of cutting the same bytes into segments lead to the same frames and the same state. |
| `FrameReader.FeedAllConsumes` | libs/proto/src/socketwrapper/socketwrapper.cpp:103-159 | The frames handed out and the part being read are together exactly the bytes received. |
| `FrameReader.StreamIsExact` | libs/proto/src/socketwrapper/socketwrapper.cpp:103-159 | From any prefix of a stream of frames the reader hands out exactly those frames that lie wholly inside it, unchanged and in order. |
| `FrameReader.FeedChunk` | libs/proto/src/socketwrapper/socketwrapper.cpp:105-124 | A transfer that fits fills the current read and completes it exactly when nothing is missing. |
| `FrameReader.Buffer.Resize` | libs/proto/src/socketwrapper/buffer.cpp:15-34 | Has the requested size afterwards, or, when memory is refused, none. |
| `FrameReader.SocketReader.ReadFrame` | libs/proto/src/socketwrapper/socketwrapper.cpp:127-159 | The buffer, reused or replaced, has room for the whole frame and is not kept larger than the frame beyond 128 bytes; the wrapper is invalidated, with nothing handed out, if and only if memory was needed and refused. |
| `FrameReader.SocketReader.TransferFrame` | libs/proto/src/socketwrapper/socketwrapper.cpp:138-158 | Bytes of a frame fill the buffer in place; the last one hands out exactly the frame and starts over with a length. |
| `FrameReader.SocketReader.Transfer` | libs/proto/src/socketwrapper/socketwrapper.cpp:103-159 | Writing a transfer into the buffers in place has exactly the effect of feeding its bytes; stale bytes of a reused buffer never show. |
| `SocketWriter.StepKeeps` | libs/proto/src/socketwrapper/socketwrapper.cpp:161-219 | Every step keeps the queue in order, at most one write in flight, the shared size field equal to the size of the frame being sent, the wire a prefix of what was started, and every callback accounted for. |
| `SocketWriter.WriteQueue` | libs/proto/src/socketwrapper/socketwrapper.cpp:24-76 | In every reachable state frames were started in the order they were issued and no callback ran twice; no frame waits in the queue unless one is being written, nor after invalidation; with no write in flight and no handler waiting every callback has run exactly once. |
| `SocketWriter.IdleMeansAllSent` | libs/proto/src/socketwrapper/socketwrapper.cpp:161-219 | Whenever a working wrapper has no write in flight and no handler waiting, everything issued is on the wire, whole and in order, and every callback was told of success, once. |
| `SocketWriter.StepTells` | libs/proto/src/socketwrapper/socketwrapper.cpp:202-219 | A completion tells the callback of the write in flight how it went, before any other; success is told in no other way, failure otherwise only once the wrapper is invalidated. |
| `SocketWriter.SuccessMeansSent` | libs/proto/src/socketwrapper/socketwrapper.cpp:199-219 | What is on the wire is a prefix of the started frames' stream, and a frame whose callback was told of success has left whole. |
| `SocketWriter.SocketWrapper.CheckPendingWrites` | libs/proto/src/socketwrapper/socketwrapper.cpp:161-219 | Drains the queue after invalidation, leaves it alone during a write, and otherwise starts the first frame. |
| `SocketWriter.SocketWrapper.AbortPendingWrites` | libs/proto/src/socketwrapper/socketwrapper.cpp:163-172 | The loop runs every queued callback once, in order, with an error, and empties the queue. |
| `SocketWriter.SocketWrapper.MeasureFrame` | libs/proto/src/socketwrapper/socketwrapper.cpp:187-191 | The loop leaves the total size of the pieces in the field that is sent. |
| `SocketWriter.SocketWrapper.Invalidate` | libs/proto/src/socketwrapper/socketwrapper.cpp:37-51 | Invalidates and drains every time, signals the first time only. |
| `SocketWriter.SocketWrapper.RunPosted` | libs/proto/src/socketwrapper/socketwrapper.cpp:58-76 | The handler `writeFrame` posted queues the frame, or aborts it when the wrapper is destroyed; both refine the step of the state machine. |
| `SocketWriter.SocketWrapper.OnWritten` | libs/proto/src/socketwrapper/socketwrapper.cpp:202-219 | The completion runs its callback with its own result; unless the wrapper is destroyed it then invalidates on an error, or starts the first waiting frame. |
| `SocketWriter.SocketWrapper.Destroy` | libs/proto/src/socketwrapper/socketwrapper.cpp:24-35 | Destruction invalidates and drains without a signal. |
| `Streams.FramesArriveInOrder` | libs/proto/src/socketwrapper/socketwrapper.cpp:103-219 | Whatever the writer went through, however much of the wire arrived and however it was cut, the reader handed out a prefix of the frames issued, byte for byte; a frame reported as written is among them if and only if the bytes up to its end have arrived. |
| `Streams.CallsArriveInOrder` | libs/proto/src/endpoint.cpp:105-282 | When every frame given to the writer is that of a call or an answer, the calls recognised at the far end are a prefix of the calls sent, with their ids, in order and unchanged, and so are the responses; together they are all that arrived whole. |
| `Endpoint.SentIsRecognised` | libs/proto/src/endpoint.cpp:199-282 | A call's frame is taken for that call and for no response, an answer's frame for that response and for no call. |
| `IncomingRequests.AnswersFitTheirRequests` | libs/proto/src/incomingrequestsmanager/incomingrequestsmanager.cpp:22-115 | In every run from the start an answer goes out for exactly the requests that were answered, under their id and once; a request whose id no earlier one bears is served until it is answered or given up, so every request is if the peer never repeats an id. |
| `IncomingRequests.IncomingRequestsManager.RegisterContext` | libs/proto/src/incomingrequestsmanager/incomingrequestsmanager.cpp:22-39 | Refines the arrival of a request: its context is registered unless its id is taken. |
| `IncomingRequests.IncomingRequestsManager.OnResponseReceived` | libs/proto/src/incomingrequestsmanager/incomingrequestsmanager.cpp:90-108 | Refines the context's answer: it is forgotten and exactly the response frame of its id is written, or nothing without a response. |
| `IncomingRequests.IncomingRequestsManager.OnInvalidResponseReceived` | libs/proto/src/incomingrequestsmanager/incomingrequestsmanager.cpp:110-115 | Refines the context's giving up: it is forgotten and nothing is written. |
| `IOContextPool.Pool.GetLeastLoaded` | libs/net-utils/src/iocontextpool.cpp:51-72 | The loop picks the first context of least load and counts it up; counters stay equal to the live guards, and the picked one carries at most one more than an equal share. |
| `IOContextPool.Pool.DecLoad` | libs/net-utils/src/iocontextpool.cpp:74-85 | A guard's destruction takes one off its own context's counter only. |

## Left out

- HTTP sessions, JSON, the command line, logging, main functions and deployment: input and output only.
- Ping requests and `pingSecondaries`: their frames are in the codec, the collecting of answers is not.
- Wrap-around of 64-bit message and request ids, and the narrowing of ids and counts to `int` in the request: ids and counts are natural numbers.
- Loss of a secondary's storage: a restarted process is a new node.
- `messages.reserve` with an absurd count in the chunk decoder: taken as having no effect.
- `flushMessages` of a response built from views, and the operation codes of responses: neither reaches the wire.
- Lifetimes of the memory behind buffers: a piece is the bytes it held when it was handed over, except the wrapper's size field, which is read when it is sent.
- Callbacks of `writeFrame` that call the socket wrapper again from inside: the repository's own callbacks do nothing.
- Destruction of a master while requests run, in the protocol: the request state machine has the step, the protocol does not take it.
- Queueing order and the reconnect delay of `SecondaryNode`: a new session may start at any time.
- The master's call of `run` right after the insertion: inserting and creating the request are one step, starting the request is another.
- OutgoingRequestsManager.Manager.SendRequestImpl: ids do not wrap around, so the branch for an id that is still pending after 2^64 requests is not modelled; the frame carries the id modulo 2^64.
- AddMessageRequest.AnswersAreBounded: rounds in which every reply is an error are not bounded, because the code repeats them for ever.
- SecondaryNode.SecondaryNode.OnMessagesReceived: `SecondaryNode` and its session are one object, so the signal from one to the other is a call.
- IOContextPool.Pool.GetLeastLoaded: the mutex is not modelled, each call is atomic; round-robin `getNext` and the threads are left out.
