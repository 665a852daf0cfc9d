# A model of DiaProxy

DiaProxy takes Diameter messages from many TTCN clients, multiplexes them over a few server
connections and brings the answers back. This project models that engine in Dafny and proves
what its parts promise together: who gets which answer, which identifiers are in use, what is
on the wire, and what the counters say.

The files, from the ground up:

- `Octets`, `Codec`: octets, padding, AVPs and messages; a recursive reader that everything
  else is compared with. `Builder`, `Capabilities`: the AVP and message objects, and the CER and
  DPR built with them. `Walkers`: the hand-written loops that search a message.
- `Framing`: reassembly of a client's byte stream, against a recursive parse of the whole
  stream. `Schedules`, `ServerReader`: the exact-length reader on the server side, against the
  schedules of quiet, short and failing reads, and the admission of a connection by its CEA.
  `Watchdog`: the two watchdog counters, against a machine with a single number.
- `Cycle`, `TransactionTable`, `Pending`, `EndToEndIds`, `Clients`: the shared tables one by one,
  as classes and as runs of events.
- `Proxy`: all of it as a step system. A step is what a thread does between two points where
  the other threads may get in; a run is any sequence of possible steps. `ProxyInvariant` and
  `ProxySteps` hold the invariant and its proof; `ProxyThreads`, `ProxyOctets`, `ProxyTheorems`,
  `ProxySearch`, `ProxyOrigins`, `ProxyPhases`, `ProxyCounting`, `ProxyRelease`, `ProxySessions`,
  `ProxyStreams`, `ProxyIdentifiers`, `ProxyTallies`, `ProxyProgress` and `ProxyService` draw the conclusions for every run, and `ProxyWitness`
  exhibits two.
- `Report`: the result-code statistics with their 32-bit arithmetic.

Where the code does something other than what one would expect, the model does it too, and a
lemma says exactly when. A search for a transaction fails with a record free iff the record was
released during the search and not taken again (`FailedSearch`). One quiet `select` between the
header and the body of a server message, and that reading never completes (`QuietBeforeBody`,
`Wait`). A carry-over of one to three octets is recognised only by chance
(`RestInClearedBuffer`). The fixed skip in an Experimental-Result is right behind a Vendor-Id
(`SkipLandsOnCode`) and in the other order only by coincidence (`SkipMissesCode`). A grouped AVP
carries whatever its memory held in the places of the paddings, and reads back all the same
(`MakeGroup`). An address counts as void iff its octets, as signed characters, add up to zero
(`LooksVoid`). Rejections by a full queue and blocked attempts are counted twice
(`CountersExact`). `findUsedClient` finds the same client again iff fewer than two wait
(`NoRotation`). `wdrCount` survives a reconnection, which is given up earlier by what was left in
it (`EarlierAfterReconnection`, `LivesOf`). A CER does not register its name iff another thread
inserted it meanwhile (`CerHandled`). A get-and-reset of the totals clears events it did not show
iff what was added in between is not zero in 32 bits (`ClearedUnseen`). Percentages add up to about a
hundred iff no multiplication overflows (`SumsToAHundred`). What is written on a socket is a
prefix of what was accepted as long as nothing follows a drop (`WrittenUntilDrop`,
`DropLeavesGap`).

## Model

| member | source | states |
|---|---|---|
| `ProxySteps.StepKeeps` | DiaProxy/source/ClientThread.cpp:326-494 | every step of every thread keeps the invariant that ties records, requests, queues and threads together |
| `ProxySteps.RunKeeps` | DiaProxy/source/ClientThread.cpp:326-494 | the invariant holds in every state of every interleaved run |
| `ProxySteps.AnswerFindsRecord` | DiaProxy/source/DiaThread.cpp:1450-1462 | the hop-by-hop identifier an answer echoes selects the record of its request, which still holds what that request had |
| `ProxyTheorems.AnswersReachTheirClient` | DiaProxy/source/DiaThread.cpp:1446-1566 | in every run a queued answer is in the queue of the client slot its request came from; a server sent it in an earlier step, to that request; and it is octet by octet what the server sent, with the two identifiers of the request |
| `ProxyOrigins.AnswerReachesSender` | DiaProxy/source/ClientThread.cpp:442-494 | from the first step to the last: a queued answer waits for the client that sent the request in one step, which a server answered in a later one under the identifier it was sent with; the message is that answer with the identifiers the request arrived with |
| `ProxyOrigins.AnswerReachesServer` | DiaProxy/source/DiaThread.cpp:1394-1436 | the same for a request of a server, answered by a client |
| `ProxyOctets.AnswerCameIn` | DiaProxy/source/DiaThread.cpp:1529-1548 | in every run each answer in a queue was received in an earlier step, with the octets and for the request noted |
| `ProxyOctets.RequestUnchanged` | DiaProxy/source/ClientThread.cpp:461-481 | in every run a queued request is octet by octet the one received, but for its identifiers; towards a client it keeps the end-to-end identifier |
| `ProxyOrigins.RequestReceived` | DiaProxy/source/ClientThread.cpp:442-494 | in every run each request with a transaction was received in an earlier step, from the peer and with the octets recorded |
| `ProxyTheorems.AnswersReachTheirServer` | DiaProxy/source/ClientThread.cpp:378-437 | the same for requests of servers: the answer a client sent in an earlier step is in the queue of the connection the request came from |
| `ProxyTheorems.QueuedRequest` | DiaProxy/source/ClientThread.cpp:448-484 | a queued request carries the number of its record plus one and is in the queue of its destination |
| `ProxyTheorems.LiveIdsDistinct` | DiaProxy/source/ClientThread.cpp:448-468 | in every run the hop-by-hop identifiers of live requests are pairwise distinct and within the table |
| `ProxyTheorems.SlotAccounting` | DiaProxy/source/ClientThread.cpp:448-492 | in every state of every run a record is used iff it is in a thread's hands, behind a queued request, behind one in flight or behind an orphaned one, and it is so in exactly one way |
| `ProxyPhases.InFlightExactly` | DiaProxy/source/ClientThread.cpp:690-751 | in every run a request is in flight iff an earlier step wrote its last octet and no later one answered or abandoned it |
| `ProxyPhases.OrphanedExactly` | DiaProxy/source/ClientThread.cpp:729-751 | in every run a request is orphaned iff an earlier step failed to send it or it was abandoned |
| `ProxyTheorems.AccountOf` | DiaProxy/source/ClientThread.cpp:888-914 | the phase of the request a used record serves tells which of the four ways it is |
| `Proxy.LocateRange` | DiaProxy/source/DiaThread.cpp:1450-1462 | the unsigned test lets exactly the identifiers from 1 to the table size select a record; 0 and larger ones never do |
| `ProxySearch.ProbesBounded` | DiaProxy/source/ClientThread.cpp:603-637 | in every run a search began with the receipt of a request, and from there its thread has made fewer `Probe` steps than there are records, so a whole search makes at most as many |
| `ProxySearch.ProbesCounted` | DiaProxy/source/ClientThread.cpp:603-637 | the number a searching thread holds is the number of `Probe` steps it made since its search began, whatever the others did |
| `ProxySearch.FailedSearch` | DiaProxy/source/ClientThread.cpp:603-637 | in every run, when a search gives up, a record is free iff it was released during that search and not given away again |
| `ProxySearch.FullTable` | DiaProxy/source/ClientThread.cpp:603-637 | a search during which nothing is released fails only on a full table |
| `ProxyTheorems.RunIsTableRun` | DiaProxy/source/ClientThread.cpp:603-637 | every run of the proxy, seen from the transaction table, is a run of the table |
| `ProxyTheorems.IdsReusedLate` | DiaProxy/source/ClientThread.cpp:608-636 | between two allocations of the same record every other record has been in use |
| `ProxyTheorems.NoSharing` | DiaProxy/source/ClientThread.cpp:603-637 | no record is given to two requests without a release in between |
| `ProxyCounting.CountersExact` | DiaProxy/source/ClientThread.cpp:701-733 | per connection and kind of message, in every state of every run, also between counting a message and popping it: received + the rejections by full queues + the blocked attempts among the steps so far = sent + discarded + queued and not yet counted + in a thread's hands |
| `ProxyCounting.CountersAtRest` | DiaProxy/source/ClientThread.cpp:794-812 | the same without the last term when no thread is in the middle of something |
| `ProxyTallies.CountersCount` | DiaProxy/source/ClientThread.cpp:701-733 | in every run and for every connection and kind of message, three laws: received is the number of steps that received one, sent the number of attempts that wrote its last octet or nothing with errno clear, discarded the number of failed or blocked attempts, rejections by full queues, sweeps and counted discards |
| `ProxyCounting.QueueBound` | DiaProxy/source/ClientThread.cpp:776-828 | with length check and push under separate locks, no queue exceeds the maximum plus the number of threads in any run |
| `ProxyProgress.PushedExactly` | DiaProxy/source/ClientThread.cpp:776-828 | in every run an offered message comes to be pushed iff the peer it is for was in service with a queue at the offer, and that queue held at most the maximum when its length was read; otherwise it is given up |
| `ProxyProgress.Fate` | DiaProxy/source/ClientThread.cpp:776-828 | in every run, by the time its thread is idle again, what a thread took up was appended to the queue of its peer, or refused for lack of a free record, of a peer in service, or of room |
| `ProxyProgress.FateOfClientRequest` | DiaProxy/source/ClientThread.cpp:442-494 | so it is for each request of a client: the server's queue gains it with the octets received outside the identifiers, or one of the reasons held |
| `ProxyProgress.FateOfServerRequest` | DiaProxy/source/DiaThread.cpp:1386-1436 | and for each request of a server that could be assigned, towards the client it was assigned to |
| `ProxyProgress.FateOfServerAnswer` | DiaProxy/source/DiaThread.cpp:1446-1566 | and for each answer of a server, towards the client of the request, with the identifiers of the request |
| `ProxyProgress.FateOfClientAnswer` | DiaProxy/source/ClientThread.cpp:378-437 | and for each answer of a client, towards the connection of the request |
| `ProxyProgress.FailureTakesDown` | DiaProxy/source/ClientThread.cpp:736-743 | in every run, after a hard error in sending a message to a server its connection is out of service |
| `ProxyService.InServiceExactly` | DiaProxy/source/ClientThread.cpp:736-743 | in every run a peer is in service, on the socket it came with, iff its last coming was followed by no going and, for a server, no failed sending; nothing else takes it down |
| `ProxyService.QueueExactly` | DiaProxy/source/DiaThread.cpp:1061-1068 | in every run a socket has a queue iff the last attachment was followed by no cleaning; it is that of the peer attached, and counts one message more between an attempt that sends or loses one and the popping |
| `ProxyService.QueueStartsEmpty` | DiaProxy/source/DiaThread.cpp:1061-1068 | a queue starts empty, for the peer that has the socket |
| `ProxyRelease.HeldUntilReleased` | DiaProxy/source/ClientThread.cpp:483-491 | in every run a thread with a transaction to release keeps it until it releases it, and a closed request stays closed |
| `ProxyRelease.RejectedIsReleased` | DiaProxy/source/DiaThread.cpp:1413-1435 | a message that cannot be queued has its transaction released by the time its thread is idle again |
| `ProxyWitness.AnAnswerArrives` | DiaProxy/source/ClientThread.cpp:442-494 | for every request and every answer echoing its number there is a run in which the answer waits for the client, so the statements over runs are not empty |
| `ProxyWitness.AnAnswerGoesBack` | DiaProxy/source/DiaThread.cpp:1322-1436 | for every CER, every server request naming what it registered and every answer echoing its number there is a run in which the answer waits for the server |
| `ProxySessions.RouteIsChosen` | DiaProxy/source/DiaThread.cpp:1333-1384 | for every pick, a server request is given up iff an AVP is missing or nobody registered either name and no client is online; else it goes to the client registered last under the Destination-Host, else the User-Name, else to one that is online |
| `ProxySessions.UsedClientPicks` | DiaProxy/source/DiaThread.cpp:99-172 | what `findUsedClient` finds, wherever its cursor is, is such a pick: an online client, or none iff there is none |
| `ProxySessions.RequestGivenUp` | DiaProxy/source/DiaThread.cpp:1333-1384 | in every run a server request is given up on receipt iff it cannot be assigned then |
| `ProxySessions.SessionsKept` | DiaProxy/source/ClientThread.cpp:327-376 | in every run the session map holds, for every name, the client whose CER registered it last: its User-Name, else its Origin-Host |
| `ProxySessions.CerHandled` | DiaProxy/source/ClientThread.cpp:342-371 | at the end of its handling a CER has registered its name, unless the name was absent when looked up and present when inserted; then nothing changes |
| `ProxySessions.CerComesToAnEnd` | DiaProxy/source/ClientThread.cpp:327-376 | in every run a CER with a name comes to that end before its thread is idle again |
| `ProxySessions.RegisteredByCer` | DiaProxy/source/ClientThread.cpp:327-376 | a registered name leads to a CER received from that client in an earlier step |
| `ProxySessions.RequestsReachTheirClient` | DiaProxy/source/DiaThread.cpp:1355-1420 | in every run a queued server request was received in an earlier step, and is in the queue of the client the whole rule chose in that step: the one whose CER last registered the Destination-Host, else the User-Name, else one that was online |
| `TransactionTable.Transactions.Probe` | DiaProxy/source/ClientThread.cpp:609-634 | one critical section of the search takes the record under the cursor, moves on, or gives up |
| `TransactionTable.Transactions.FindTransaction` | DiaProxy/source/ClientThread.cpp:603-637 | undisturbed, -1 iff all records are used, else the first free one in cyclic order, after exactly the probes needed |
| `TransactionTable.NoDoubleHandout` | DiaProxy/source/ClientThread.cpp:603-637 | for any interleaving of probes and releases, a record is handed out again only after a release |
| `TransactionTable.DelayedReuse` | DiaProxy/source/ClientThread.cpp:608-636 | for any interleaving, between two allocations of a record no other record stayed free |
| `TransactionTable.FreeAtGiveUp` | DiaProxy/source/ClientThread.cpp:603-637 | for any interleaving, a record is free when a search gives up iff it was released during the search and not taken again |
| `TransactionTable.AllSeenUsed` | DiaProxy/source/ClientThread.cpp:603-637 | a search that gives up has seen every record in use |
| `TransactionTable.FailureWithAFreeRecord` | DiaProxy/source/ClientThread.cpp:603-637 | such a failure happens: a run of three events |
| `Pending.PendingMessages.AddMessageAsPending` | DiaProxy/source/ClientThread.cpp:768-831 | the message is appended iff the socket has a queue of at most the maximum; a rejection is counted |
| `Pending.PendingMessages.SendPendingMessage` | DiaProxy/source/ClientThread.cpp:672-765 | for every sequence of send outcomes: the queue, counters, result and broken connections are those of the recursive drain |
| `Pending.DrainIsAttempts` | DiaProxy/source/ClientThread.cpp:690-761 | a call is a row of attempts on the head of the queue, at most one for each message |
| `Pending.CallExactly` | DiaProxy/source/ClientThread.cpp:690-765 | a call attempts the messages in order, every attempt but the last completing one; the counters grow by the attempts that complete and by those that err; the result is that of the last attempt, and a connection is found broken iff that failed towards a server |
| `Pending.AttemptCounted` | DiaProxy/source/ClientThread.cpp:701-733 | an attempt adds one to those sent iff it writes the last octet, or nothing with errno clear, and one to those discarded iff it errs |
| `Pending.RunExact` | DiaProxy/source/ClientThread.cpp:690-761 | over every run, what was written is the written parts of the messages that left plus the written part of the front one, in order |
| `Pending.WrittenIsPrefix` | DiaProxy/source/ClientThread.cpp:690-761 | without dropping outcomes the octets written over all calls are a prefix of the accepted messages end to end |
| `Pending.WrittenUntilDrop` | DiaProxy/source/ClientThread.cpp:690-761 | with drops the same holds for as long as nothing is written after the first one |
| `ProxyStreams.SocketCarriesPrefix` | DiaProxy/source/ClientThread.cpp:690-761 | in every run, while a queue lives and nothing is dropped, the octets its `Send` steps wrote are a prefix of the messages its `Push` steps accepted |
| `Pending.DropLeavesGap` | DiaProxy/source/ClientThread.cpp:729-751 | after a hard error in front the next message follows without the first |
| `Pending.PendingMessages.CleanPendingMessages` | DiaProxy/source/ClientThread.cpp:888-935 | the queue is removed, each message counted as discarded and its transaction released |
| `Pending.ReleasedExactly` | DiaProxy/source/ClientThread.cpp:903-914 | clean-up frees exactly the transactions of the removed messages |
| `Pending.DiscardedExactly` | DiaProxy/source/ClientThread.cpp:903-914 | clean-up counts each removed message once, as discarded, on its connection and kind |
| `EndToEndIds.Injective` | DiaProxy/source/ClientThread.cpp:464-466 | within the limits an identifier determines client position, seed and counter |
| `EndToEndIds.NoWrap` | DiaProxy/source/ClientThread.cpp:464-466 | within the limits nothing wraps and no identifier is zero |
| `EndToEndIds.LimitsTight` | DiaProxy/source/DiaProxy.cpp:260-266 | the largest identifier is 2^32-1, and one step beyond the limits wraps |
| `EndToEndIds.ConsecutiveDiffer` | DiaProxy/source/ClientThread.cpp:464-466 | any 7296 consecutive requests of a thread get different identifiers |
| `ProxyIdentifiers.ConsecutiveIdsDiffer` | DiaProxy/source/ClientThread.cpp:464-466 | in every run any 7296 consecutive requests a thread passes on carry different end-to-end identifiers on the wire |
| `ProxyIdentifiers.IdOnWire` | DiaProxy/source/ClientThread.cpp:464-466 | in every run the end-to-end identifier on the wire is made of the client's position, the seed and the number of requests the thread passed on before, modulo 7296 |
| `EndToEndIds.Thread.NewId` | DiaProxy/source/ClientThread.cpp:464-466 | the identifier and the next counter value |
| `Clients.ClientTable.FindUsedClient` | DiaProxy/source/DiaThread.cpp:99-172 | the two loops compute the two cyclic searches, and where the cursor is left |
| `Clients.FoundIffOnline` | DiaProxy/source/DiaThread.cpp:99-172 | a client is found iff one is online, and it is online |
| `Clients.WaitingPreferred` | DiaProxy/source/DiaThread.cpp:139-172 | an online client waiting for an answer is preferred |
| `Clients.UsedIsNearest` | DiaProxy/source/DiaThread.cpp:99-172 | it is the nearest waiting client from the cursor on, or if none waits the nearest online one from the position before |
| `Clients.NoRotation` | DiaProxy/source/DiaThread.cpp:101-172 | the same client is found again iff fewer than two online clients wait |
| `Framing.OnReadable` | DiaProxy/source/ClientThread.cpp:189-239 | one read hands on exactly the messages of the parse of carry-over and chunk, and carries over exactly its rest |
| `Framing.ReadStream` | DiaProxy/source/ClientThread.cpp:189-239 | all reads of a client, for any cutting of a framed stream: the messages handed on are those of the whole-stream parse and the carry-over is its rest |
| `Framing.FramedSplit` | DiaProxy/source/ClientThread.cpp:226-239 | what reassembly makes of a part of a framed stream is framed |
| `Framing.Rewrite` | DiaProxy/source/ClientThread.cpp:461-467 | rewriting a message in place puts the two identifiers into it and touches no octet outside it |
| `Framing.Turn` | DiaProxy/source/ClientThread.cpp:497-510 | one turn of the loop hands on the first message of the parse or saves the rest |
| `Framing.ParseConcat` | DiaProxy/source/ClientThread.cpp:226-239 | messages with truthful lengths parse to themselves, followed by an incomplete rest |
| `Framing.ParseCovers` | DiaProxy/source/ClientThread.cpp:226-239 | the messages and the rest make up the stream |
| `Framing.ParseSplit` | DiaProxy/source/ClientThread.cpp:190-236 | parsing in two parts with carry-over is parsing the whole, for every stream and split |
| `Framing.ChunkingIrrelevant` | DiaProxy/source/ClientThread.cpp:190-236 | any number of reads, however cut, dispatches what the whole-stream parse yields |
| `Framing.RestInClearedBuffer` | DiaProxy/source/ClientThread.cpp:226-239 | exactly which carry-overs of one to three octets are recognised |
| `ServerReader.Connection.FillUp` | DiaProxy/source/DiaThread.cpp:527-594 | for every schedule: octets land contiguously, and the filling is complete iff the schedule delivers them |
| `ServerReader.Connection.ReadHeader` | DiaProxy/source/DiaThread.cpp:1147-1249 | for every schedule: the twenty octets of the header are taken iff they arrive with fewer than twenty quiet turns |
| `ServerReader.Connection.Wait` | DiaProxy/source/DiaThread.cpp:501-525 | the wait for the body ends well iff its very first turn finds the socket ready |
| `ServerReader.Connection.ReadBody` | DiaProxy/source/DiaThread.cpp:483-600 | for every schedule: complete iff the wait ends and the rest is delivered, with any number of quiet turns; one octet too many after an unnoticed failure |
| `ServerReader.Connection.ReadMessage` | DiaProxy/source/DiaThread.cpp:1147-1258 | for every schedule: complete iff a whole message arrives, and then exactly it is taken off the stream, or one octet more after a slip |
| `ServerReader.Connection.ReadMessages` | DiaProxy/source/DiaThread.cpp:1112-1258 | for every schedule the messages read are those of the recursive session, which goes on after a slip with the shifted octets |
| `Schedules.SessionIsPrefix` | DiaProxy/source/DiaThread.cpp:1112-1258 | for every schedule the messages read before a slip are the first ones of the whole-stream parse |
| `Schedules.NoSlip` | DiaProxy/source/DiaThread.cpp:527-534 | without a failing read there is no slip, and a framed stream shows no other length fields than those of its messages |
| `Schedules.NothingMissed` | DiaProxy/source/DiaThread.cpp:1112-1258 | all messages are read on every schedule without failures: any quiet turns before a message and in its body, fewer than twenty in its header, none in the wait |
| `Schedules.DeliversExactly` | DiaProxy/source/DiaThread.cpp:527-594 | a schedule delivers iff the stream holds the octets and some first turns are free of failures, offer enough and are not too quiet |
| `Schedules.HeaderExactly` | DiaProxy/source/DiaThread.cpp:1147-1249 | a header is read iff the stream holds twenty octets, the first piece is not empty, and some first turns with fewer than twenty quiet ones offer the rest without a failure |
| `Schedules.BodyExactly` | DiaProxy/source/DiaThread.cpp:501-594 | a body is read iff the first turn is not quiet and turns behind it offer what is missing without a failure, one octet more if the first read failed |
| `Schedules.QuietBeforeBody` | DiaProxy/source/DiaThread.cpp:501-525 | after one quiet turn between header and body no continuation completes the reading |
| `ServerReader.Connection.ReceiveCea` | DiaProxy/source/DiaThread.cpp:174-480 | for every schedule: it returns true iff for some n < 2 the first n turns are quiet, from the next one a whole message arrives, and the octets read of it are a successful CEA; after two quiet turns it returns false with TOBECONNECTED, whatever follows; a refused CEA gives CONFIGURATIONERROR, another message TOBECONNECTED |
| `ServerReader.Connection.Admit` | DiaProxy/source/DiaThread.cpp:1042-1063 | for every schedule: the connection becomes CONNECTED iff a whole message arrives after no or one quiet turn and the octets read of it are a successful CEA; never after two quiet turns |
| `ServerReader.CeaInTime` | DiaProxy/source/DiaThread.cpp:174-480 | a message that trickles in undisturbed after at most one quiet turn is the one checked |
| `ServerReader.CeaReadExactly` | DiaProxy/source/DiaThread.cpp:463-475 | octets come to be checked iff a message arrives after no or one quiet turn, and which; none after two quiet turns |
| `ServerReader.SuccessfulCea` | DiaProxy/source/DiaThread.cpp:350-427 | in every well-formed message that fits the buffer: success iff the command code is 257 and the first Result-Code holds 2001, completed by what follows it if it is too short; without one there is no success |
| `Watchdog.Counters.Iterate` | DiaProxy/source/DiaThread.cpp:1126-1144 | one round changes the two counters as the single number of silent rounds, sends the request it says, and keeps or ends the connection; `UpExactly` and `RequestsExactly` say when, by the rounds alone |
| `Watchdog.Counters.Unread` | DiaProxy/source/DiaThread.cpp:1575-1604 | a round without data adds one to the silence, requests at each period, and gives up at the limit |
| `Watchdog.Counters.Reconnect` | DiaProxy/source/DiaThread.cpp:645-649 | a reconnection clears the pending requests but not the part of a period that has passed |
| `Watchdog.Bounded` | DiaProxy/source/DiaThread.cpp:1575-1604 | in every run at most MAX_WDR_PENDING requests are unanswered; none with watchdogs switched off |
| `Watchdog.SilenceIsSilent` | DiaProxy/source/DiaThread.cpp:1126-1144 | in any life of a connection the silence is the number of rounds without a sign of life before now, and if there was none in this life, all its rounds and what it started with |
| `Watchdog.GivenUpExactly` | DiaProxy/source/DiaThread.cpp:1575-1585 | a connection is given up in a quiet round iff the MAX_WDR_PENDING * (WDR_TIME + 1) rounds before were silent, the leftover at its start counting as silence until the first sign of life |
| `Watchdog.LivesOf` | DiaProxy/source/DiaThread.cpp:726-737 | so it is after any number of reconnections, with less than a period as leftover |
| `Watchdog.RequestRounds` | DiaProxy/source/DiaProxy.h:45-46 | from zero, requests go out in quiet rounds k * (WDR_TIME + 1), k = 1..MAX_WDR_PENDING, and only there; the next round gives up |
| `Watchdog.EarlierAfterReconnection` | DiaProxy/source/DiaThread.cpp:726-737 | after a reconnection the connection is given up earlier by what was left in wdrCount |
| `Watchdog.UpExactly` | DiaProxy/source/DiaThread.cpp:1575-1604 | a connection is up after its rounds iff none of them took it down in sending, failed in reading, sent a request that failed, or was quiet after 5005 silent rounds; the last two only without `skip_wd` |
| `Watchdog.RequestsExactly` | DiaProxy/source/DiaThread.cpp:1588-1603 | a round sends a request iff watchdogs are on, nothing came in and the silence is 1001, 2002, 3003, 4004 or 5005 rounds long |
| `Watchdog.LeftExactly` | DiaProxy/source/DiaThread.cpp:645-649 | a lost connection leaves to the next one what had passed of a period if the sending took it down, and nothing otherwise |
| `Watchdog.UpInRuns` | DiaProxy/source/DiaThread.cpp:726-737 | so it is for every life in every run, after any number of reconnections |
| `Watchdog.UpWithoutWatchdogs` | DiaProxy/source/DiaThread.cpp:1588-1588 | with watchdogs switched off, in every run a connection is up iff no round of its life took it down in sending or failed in reading |
| `Codec.DecodeEncode` | DiaProxy/source/AVP.cpp:173-235 | every fitting list of AVPs is well formed when built and reads back as itself |
| `Codec.DecodeAnyPadding` | DiaProxy/source/AVP.cpp:7-16 | so it does whatever octets are in the places of the paddings |
| `Codec.PaddingMatters` | DiaProxy/source/AVP.cpp:7-16 | the octets are those of the encoding iff all paddings are zero |
| `Codec.LookupBuilt` | DiaProxy/source/Utils.cpp:177-223 | a look-up in a built message is the look-up in its list of AVPs |
| `Codec.FirstDataIsFirst` | DiaProxy/source/Utils.cpp:177-223 | a look-up yields the data of the first AVP with the code, and nothing iff there is none |
| `Codec.OpenGroup` | DiaProxy/source/AVP.cpp:7-16 | the data of a grouped AVP reads back as its children |
| `Codec.Aligned` | DiaProxy/source/AVP.cpp:229-235 | every list of built AVPs ends, and so the next AVP starts, on a four-octet boundary |
| `Codec.IdsReplaced` | DiaProxy/source/ClientThread.cpp:461-468 | replacing the identifiers changes them and no other octet |
| `Codec.IdsRestored` | DiaProxy/source/DiaThread.cpp:1534-1535 | restoring the identifiers a message had gives the message back |
| `Builder.AvpObject.Raw` | DiaProxy/source/AVP.cpp:173-196 | the object stands for the AVP with these data |
| `Builder.AvpObject.Text` | DiaProxy/source/AVP.cpp:76-140 | the same for C strings, with eight octets of memory for strings shorter than four |
| `Builder.AvpObject.Address4` | DiaProxy/source/AVP.cpp:76-140 | an IPv4 address behind its family; one that looks void is replaced by the host's own |
| `Builder.AvpObject.Address6` | DiaProxy/source/AVP.cpp:142-170 | an IPv6 address behind its family |
| `Builder.LooksVoid` | DiaProxy/source/AVP.cpp:18-26 | exactly which addresses look void |
| `Builder.AvpObject.Composed` | DiaProxy/source/AVP.cpp:54-73 | a grouped AVP declares its length in advance and is empty |
| `Builder.MakeGroup` | DiaProxy/source/AVP.cpp:7-73 | for any list of complete children, a group declared with their sum is complete, its data decode to the children whatever its memory held, and equal the encoded group iff the padding octets are zero |
| `Builder.AvpObject.AddSub` | DiaProxy/source/AVP.cpp:7-16 | a child is appended behind the others, its padding as the buffer had it |
| `Builder.AvpObject.GetValue` | DiaProxy/source/AVP.cpp:220-225 | header and data are copied, nothing else is touched |
| `Builder.DiaMessage.constructor` | DiaProxy/source/DiaMessage.cpp:3-24 | an empty request with a zeroed buffer |
| `Builder.DiaMessage.SetCmdCode` | DiaProxy/source/DiaMessage.cpp:58-63 | two octets of the header change |
| `Builder.DiaMessage.AddAvp` | DiaProxy/source/DiaMessage.cpp:32-36 | the buffer holds the encoding of one AVP more, padding zero |
| `Builder.DiaMessage.Message` | DiaProxy/source/DiaMessage.cpp:44-57 | the message is the header with its length field set, and the encoded AVPs |
| `Builder.SizedLength` | DiaProxy/source/DiaMessage.cpp:50-57 | the length field reads back as the size and the rest of the header is as it was |
| `Capabilities.CreateCer` | DiaProxy/source/DiaThread.cpp:1792-1899 | for every configuration: the header of a request 257 with the two identifiers, and AVPs that decode to 264, 296, 257, 266 and 269 with host, realm, address, vendor and product, one 265 and 258 for each configured vendor and application in order, one 260 for each pair holding its Vendor-Id and its Auth-Application-Id, and 267 |
| `Capabilities.CreateDpr` | DiaProxy/source/DiaThread.cpp:1911-1943 | the header of a request 282, and AVPs that decode to 264, 296 and 273 with host, realm and cause 2 |
| `Capabilities.CerReadsBack` | DiaProxy/source/DiaThread.cpp:1792-1899 | the octets read back so, header and AVPs, and a look-up finds the configured names |
| `Capabilities.DprReadsBack` | DiaProxy/source/DiaThread.cpp:1911-1943 | the same for the DPR, and a look-up finds its Disconnect-Cause |
| `Capabilities.CerIsForConfig` | DiaProxy/source/DiaThread.cpp:1804-1893 | the AVPs of the builder are those meant for the configuration, with literal codes, flags and order |
| `Capabilities.ApplicationHeld` | DiaProxy/source/DiaThread.cpp:1862-1883 | the first of a configured pair is the Vendor-Id and the second the Auth-Application-Id of its group |
| `Walkers.ExtractAvp` | DiaProxy/source/Utils.cpp:177-223 | on every buffer it can walk, the loop finds the data of the first AVP with the code; on a well-formed message that is the reference look-up |
| `Walkers.FirstValueIsLookup` | DiaProxy/source/Utils.cpp:177-223 | a well-formed message can always be walked, and the value is that of the look-up in its AVPs |
| `Walkers.ExtractResultCode` | DiaProxy/source/Utils.cpp:225-282 | on every buffer it can walk, the loop finds the number in the first result AVP |
| `Walkers.ResultAtIsFirst` | DiaProxy/source/Utils.cpp:225-282 | the position found is that of the first Result-Code or Experimental-Result of the decoded message |
| `Walkers.ResultCodeIsFirst` | DiaProxy/source/Utils.cpp:225-282 | the value is the number in that AVP, whatever follows the message in the buffer |
| `Walkers.SkipLandsOnCode` | DiaProxy/source/Utils.cpp:246-262 | in a group starting with a twelve-octet Vendor-Id the skip lands on the nested code |
| `Walkers.SkipMissesCode` | DiaProxy/source/Utils.cpp:246-262 | in the other order it lands on the vendor, and is right iff the two are equal |
| `Walkers.WalkCea` | DiaProxy/source/DiaThread.cpp:358-427 | on every buffer it can walk, the walk accepts iff the four octets behind the header of the first Result-Code are 2001 |
| `Walkers.ResultWordIs` | DiaProxy/source/DiaThread.cpp:360-427 | in a well-formed message these are the data of the first Result-Code, completed by what follows them if they are fewer than four octets; there are none iff there is no Result-Code |
| `Walkers.SuccessIsLookup` | DiaProxy/source/DiaThread.cpp:360-427 | for a Result-Code of four octets that is the look-up in the decoded message |
| `Walkers.SameAdvance` | DiaProxy/source/Utils.cpp:209-216 | the padding loop and the modulo test advance alike |
| `Octets.BytesToPad` | DiaProxy/source/Utils.cpp:43-49 | the loop finds the least number of octets up to a four-octet boundary |
| `Octets.IntToHex` | DiaProxy/source/Utils.cpp:61-69 | the digits of the number to base 256, nothing behind them touched |
| `Octets.OctetsToInt` | DiaProxy/source/Utils.cpp:102-109 | the value of four octets |
| `Octets.HexRoundTrip` | DiaProxy/source/Utils.cpp:61-109 | one after the other they are the identity on non-negative 31-bit numbers |
| `Report.Conserved` | DiaProxy/source/ReportManagerThread.cpp:246-281 | for every interleaving of counting, collecting, accumulating and resetting, events = residues + in hand + total + cleared + 2^32 per wrap-around |
| `Report.NoneLost` | DiaProxy/source/RemoteThread.cpp:673-683 | below 2^32 events nothing wraps and the account is exact |
| `Report.TotalIsWhatWasCollected` | DiaProxy/source/ReportManagerThread.cpp:246-281 | a total never reset shows the events before the last accumulated collection and no later one, also none that fell between its two critical sections |
| `Report.EachNumber` | DiaProxy/source/ReportManagerThread.cpp:246-281 | after any interleaving of fewer than 2^32 events, each counter of a connection is what it counted since the last collection, the sums in hand what was collected and not accumulated, and the total what was accumulated since the last reset |
| `Report.ShownIsCleared` | DiaProxy/source/RemoteThread.cpp:440-445 | what the get-and-reset command shows is what it clears when nothing is accumulated in between |
| `Report.ClearedUnseen` | DiaProxy/source/RemoteThread.cpp:440-445 | whatever happens in between, what is shown is what is cleared iff the sums accumulated in between add up to zero in 32 bits; otherwise events are cleared that were never shown |
| `Report.Classify` | DiaProxy/source/DiaThread.cpp:1464-1506 | which result codes count as success, busy, unable to comply |
| `Report.Statistics.CountAnswer` | DiaProxy/source/DiaThread.cpp:1464-1506 | an answer is counted once, by its first result code |
| `Report.Statistics.Collect` | DiaProxy/source/ReportManagerThread.cpp:255-273 | the residues are summed in 32 bits and zeroed, per kind |
| `Report.Statistics.Accumulate` | DiaProxy/source/ReportManagerThread.cpp:275-306 | the sums are added to the totals, and the row written |
| `Report.Statistics.ResetTotals` | DiaProxy/source/RemoteThread.cpp:673-683 | the totals are cleared |
| `Report.SumsToAHundred` | DiaProxy/source/ReportManagerThread.cpp:293-306 | for fewer than 2^32 answers the four percentages sum to 97..100 iff no multiplication overflows |
| `Report.Floors` | DiaProxy/source/ReportManagerThread.cpp:293-306 | each number of a row is its own count times a hundred, in 32 bits, divided by the answers and rounded down |
| `Report.ExactlyAHundred` | DiaProxy/source/ReportManagerThread.cpp:293-306 | they sum to 100 iff every count is a whole number of percents |
| `Report.HundredOfTheWrong` | DiaProxy/source/ReportManagerThread.cpp:293-306 | beyond 2^32 answers a sum of 100 proves nothing |

## Left out

Assumptions of the step system, where the code relies on its surroundings:

- Peers answer a request that was sent completely at most once and echo its hop-by-hop identifier; an identifier out of range is modelled, a stray one in range is not.
- A socket number is not used again before the queue of its former owner has been removed, and a queue is removed only when no thread is between finding it and using it: the code keeps an iterator there without the lock.
- A queue is removed only when no peer in service has its socket; an exiting thread cleans up a connection that is still CONNECTED, which is not a step.
- Copying the front message, sending it and counting it are one step; popping it is another.
- A client's answer with an identifier out of range is dropped; that its client is then closed is a step of its own.
- "The client slot" is a position in the table; another TTCN client may have taken the position since the request.
- `conIndex < 0` (DiaProxy/source/ClientThread.cpp:395) can never hold of an unsigned number; no run of the model gets there.
- Which connection a client uses is any connection; the assignment by application is not modelled.
- The two look-ups for a server request, under separate locks, and the search for an online client are one step.
- Increments of counters outside a lock are treated as atomic.
- In clean-up the release of a record sits under an unbraced `if` (DiaProxy/source/ClientThread.cpp:908-912); it is modelled as guarded, which differs for answers only.
- Idle cleaning of records and clearing of the session map are not steps.

Contracts stated for less than every input, or weaker:

- Framing.OnReadable: needs length fields from 20 to 65535, and a rest of one to three octets that the loop recognises (`RestInClearedBuffer` says which); otherwise the code misframes.
- Framing.ReadStream: needs the same of the stream; a rest of one to three octets only where the buffer was cleared.
- Framing.Turn: needs the same of what is left in the buffer.
- Walkers.ExtractAvp: needs that no AVP it passes has length zero, at which the loop does not advance, and that what it reads is in the buffer.
- Walkers.ExtractResultCode: needs the same.
- ServerReader.Connection.ReceiveCea: needs a length field from 20 to the size of the buffer; when the walk meets an AVP of length zero or leaves the buffer before a Result-Code, the code is not defined and the model stops.
- Walkers.WalkCea: needs that no AVP it passes has length zero, and that what it reads is in the buffer.
- ServerReader.Connection.ReadMessage: needs length fields from 20 to the size of the buffer.
- ServerReader.Connection.ReadMessages: needs the same of every length field it reads, also of the octets taken for one after a slip.
- ServerReader.SuccessfulCea: leaves out a Result-Code of fewer than four octets within the last four octets of the buffer, whose word would be read behind it.
- Builder.AvpObject.Address4: the source copies six octets from an array of four into the last four places of a buffer of six; the two octets read behind the array and written behind the buffer are not modelled.
- Pending.PendingMessages.CleanPendingMessages: the store for messages without a transaction, which the unbraced `if` lets through, is outside the table.
- ProxyCounting.CountersExact: counters are unbounded numbers; in the code the law holds modulo 2^32.
- Builder.AvpObject.AddSub: needs room for the child in the buffer of twice the declared size.
- Octets.OctetsToInt: the overflow of the C sum for a first octet of 128 or more is taken as two's complement.

Not modelled:

- Sockets, `select`, SCTP, TLS and name resolution: only what their calls return.
- Watchdog and disconnect messages bypass the queues; their octets (`generate_wdr`, `add_response`) are not modelled.
- The CEA sent to a client is not modelled, nor the bookkeeping of `findConnection` and `closeClient`.
- The request counter of the report is counted like the answers; when it is switched on and off is not modelled.
- Latency reports, `parseBuffer`, `dumpBuffer`, logging, CpsMonitor, remote commands, configuration.
- The directories cnDiaProxy, conKeeper and apirest_simu.
