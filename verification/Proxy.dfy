/** The proxy engine as a step system. Client threads and server threads
    (DiaProxy/source/ClientThread.cpp, DiaThread.cpp) work on shared tables; a step is
    what one of them does between two points where the others may get in. A run is any
    sequence of steps that are possible one after the other.

    Next to the program's own state there is a ledger of the requests that were given
    a transaction, and each record of the transaction table names the entry it serves.
    The program has neither: they say what the identifiers on the wire stand for. */
module Proxy {
  import opened Octets
  import opened Codec
  import opened Pending
  import EndToEndIds

  // ---------------------------------------------------------------- state

  /** `struct Transaction`; `owner` is the ledger entry it serves, or -1. */
  datatype Slot = Slot(used: bool, endToEnd: Word, hopByHop: Word, client: int, answerTo: int, owner: int)

  /** Where a request with a transaction is. */
  datatype Phase =
    | Held(thread: nat)       // a thread is preparing it for a queue
    | Queued(sock: nat)
    | InFlight                // sent completely, not answered yet
    | Answered(thread: nat)   // a thread is handling its answer
    | Swept(thread: nat)      // taken from a queue that is being removed
    | Orphaned                // its sending failed, or its peer is gone
    | Closed                  // its transaction has been released

  /** A request as received, the transaction it was given, and its octets as sent. */
  datatype Request = Request(kind: Kind, connection: nat, client: nat, bytes: seq<Byte>,
                             slot: nat, wire: seq<Byte>, phase: Phase)

  /** A request on its way to a transaction. */
  datatype Task = Task(kind: Kind, connection: nat, client: nat, bytes: seq<Byte>)

  /** A message to be queued, and the transaction behind it. */
  datatype Work = Work(message: Message, slot: nat)

  /** A transaction a thread still has to release. */
  datatype Hold = Hold(slot: nat, request: nat)

  /** Where a thread is in handling a message. */
  datatype Pc =
    | Idle
    | Searching(task: Task, probes: nat)              // in findTransaction
    | Filling(task: Task, slot: nat, request: nat)    // has a record
    | Offering(work: Work)                            // about to look at the destination
    | Sizing(work: Work, sock: nat)                   // in addMessageAsPending, queue found
    | Pushing(work: Work, sock: nat)                  // queue found short enough
    | Closing(cell: Cell, uncounted: bool, held: Option<Hold>)
                                                      // still to count a discard, to release a record
    | Sweeping(messages: seq<Message>)                // in cleanPendingMessages
    | Registering(client: nat, key: seq<Byte>, found: bool)

  datatype Peer = AtClient(client: nat) | AtServer(connection: nat)

  /** The queue of a socket. `home` is the peer the socket leads to; `popping` says that there
      is one message more in front, which has been sent or lost, and counted as such, but not
      popped yet. */
  datatype Queue = Absent | Present(messages: seq<Message>, home: Peer, popping: bool)

  /** A client slot, or a server connection: in service (ONLINE, CONNECTED) or not. */
  datatype Endpoint = Endpoint(up: bool, sock: nat)

  datatype Config = Config(maxQueue: nat, seed: nat)

  datatype State = State(config: Config,
                         slots: seq<Slot>, cursor: nat, ledger: seq<Request>,
                         threads: seq<Pc>, counts: seq<nat>,
                         queues: seq<Queue>, clients: seq<Endpoint>, links: seq<Endpoint>,
                         session: map<seq<Byte>, nat>, counters: Counters)

  function FreeSlot(): (s: Slot)
  {
    Slot(false, 0xffff_ffff, 0xffff_ffff, -1, -1, -1)
  }

  ghost predicate Init(s: State)
  {
    && 1 <= |s.slots| < 0x1_0000_0000 && s.cursor == 0 && s.ledger == []
    && (forall i :: 0 <= i < |s.slots| ==> s.slots[i] == FreeSlot())
    && |s.counts| == |s.threads|
    && (forall t :: 0 <= t < |s.threads| ==> s.threads[t] == Idle && s.counts[t] == 0)
    && (forall k :: 0 <= k < |s.queues| ==> s.queues[k] == Absent)
    && (forall c :: 0 <= c < |s.clients| ==> !s.clients[c].up)
    && (forall k :: 0 <= k < |s.links| ==> !s.links[k].up)
    && s.session == map[] && s.counters == map[]
  }

  // -------------------------------------------------------------- helpers

  predicate IsRequest(k: Kind)
  {
    k == RequestToServer || k == RequestToClient
  }

  /** The unsigned test made on a received hop-by-hop identifier. */
  function Locate(hop: Word, n: nat): (slot: Option<nat>)
    requires n >= 1
  {
    var index := (hop + 0xffff_ffff) % 0x1_0000_0000;    // hop - 1, as an unsigned int
    if index > n - 1 then None else Some(index)
  }

  /** Only identifiers from 1 to the size of the table select a record. */
  lemma LocateRange(hop: Word, n: nat)
    requires 1 <= n < 0x1_0000_0000
    ensures Locate(hop, n) == if 1 <= hop <= n then Some(hop - 1) else None
  {
  }

  function SetPhase(ledger: seq<Request>, r: int, p: Phase): (l: seq<Request>)
    ensures |l| == |ledger|
  {
    if 0 <= r < |ledger| then ledger[r := ledger[r].(phase := p)] else ledger
  }

  function SetPc(s: State, t: nat, pc: Pc): (s': State)
    requires t < |s.threads|
  {
    s.(threads := s.threads[t := pc])
  }

  /** Releasing a record: `status = NOTUSED`. */
  function Release(slots: seq<Slot>, i: int): (r: seq<Slot>)
    ensures |r| == |slots|
  {
    if 0 <= i < |slots| then slots[i := slots[i].(used := false, owner := -1)] else slots
  }

  /** Where a message goes, and the socket that leads there at the moment. */
  function Destination(m: Message): (p: Option<Peer>)
  {
    if m.kind in {RequestToServer, AnswerToServer} then Some(AtServer(m.connection))
    else if m.note.client >= 0 then Some(AtClient(m.note.client))
    else None
  }

  function SocketOf(s: State, p: Peer): (sock: Option<nat>)
  {
    match p
    case AtClient(c) => if c < |s.clients| && s.clients[c].up then Some(s.clients[c].sock) else None
    case AtServer(k) => if k < |s.links| && s.links[k].up then Some(s.links[k].sock) else None
  }

  /** The length of a queue, as the program finds it. */
  function Length(q: Queue): (n: nat)
  {
    if q.Absent? then 0 else |q.messages| + (if q.popping then 1 else 0)
  }

  /** There is a message at this place of this queue. */
  predicate InQueueAt(s: State, k: nat, j: nat)
  {
    k < |s.queues| && s.queues[k].Present? && j < |s.queues[k].messages|
  }

  predicate Known(s: State, p: Peer)
  {
    match p
    case AtClient(c) => c < |s.clients|
    case AtServer(k) => k < |s.links|
  }

  /** No peer in service has this socket. */
  ghost predicate Unused(s: State, sock: nat)
  {
    && (forall c :: 0 <= c < |s.clients| ==> !(s.clients[c].up && s.clients[c].sock == sock))
    && (forall k :: 0 <= k < |s.links| ==> !(s.links[k].up && s.links[k].sock == sock))
  }

  predicate HoldsQueue(pc: Pc, sock: nat)
  {
    (pc.Sizing? || pc.Pushing?) && pc.sock == sock
  }

  /** The User-Name, else the Origin-Host, a client registers with. */
  function RegistrationKey(bytes: seq<Byte>): (key: Option<seq<Byte>>)
    requires WellFormed(bytes, HEADER_LENGTH)
  {
    if Lookup(bytes, USERNAME_CODE).Some? then Lookup(bytes, USERNAME_CODE) else Lookup(bytes, ORIGINHOST_CODE)
  }

  /** The client a server request is for: by Destination-Host, by User-Name, or the one
      `findUsedClient` came up with (-1 if none). Without the two AVPs, none. */
  function Route(session: map<seq<Byte>, nat>, bytes: seq<Byte>, pick: int): (client: int)
    requires WellFormed(bytes, HEADER_LENGTH)
  {
    var user, dest := Lookup(bytes, USERNAME_CODE), Lookup(bytes, DESTINATIONHOST_CODE);
    if user == None || dest == None then -1
    else if dest.value in session then session[dest.value]
    else if user.value in session then session[user.value]
    else pick
  }

  // ---------------------------------------------------------------- steps

  datatype Step =
    | ClientRequest(t: nat, client: nat, connection: nat, bytes: seq<Byte>)
    | ServerRequest(t: nat, connection: nat, bytes: seq<Byte>, pick: int)
    | Probe(t: nat)
    | Fill(t: nat)
    | ServerAnswer(t: nat, connection: nat, request: nat, bytes: seq<Byte>)
    | ClientAnswer(t: nat, request: nat, bytes: seq<Byte>)
    | Offer(t: nat)
    | Size(t: nat)
    | Push(t: nat)
    | CountDiscard(t: nat)
    | ReleaseSlot(t: nat)
    | Send(sock: nat, outcome: Outcome)
    | Pop(sock: nat)
    | StartClean(t: nat, sock: nat)
    | Sweep(t: nat)
    | Abandon(request: nat)
    | Up(peer: Peer, sock: nat)
    | Down(peer: Peer)
    | Attach(peer: Peer)
    | CerLookup(t: nat, client: nat, bytes: seq<Byte>)
    | CerCommit(t: nat)

  /** The peers answer a request that reached them completely at most once, and echo its
      hop-by-hop identifier; or the identifier is out of range. */
  predicate FairAnswer(s: State, request: nat, kind: Kind, bytes: seq<Byte>)
  {
    && |bytes| >= HEADER_LENGTH && |s.slots| >= 1
    && request < |s.ledger| && s.ledger[request].phase == InFlight && s.ledger[request].kind == kind
    && |s.ledger[request].wire| >= HEADER_LENGTH
    && HopByHop(bytes) == HopByHop(s.ledger[request].wire)
  }

  /** What `findUsedClient` may have come up with: a client that is online, or -1 if there
      is none. */
  ghost predicate Picked(s: State, pick: int)
  {
    if pick == -1 then forall c :: 0 <= c < |s.clients| ==> !s.clients[c].up
    else 0 <= pick < |s.clients| && s.clients[pick].up
  }

  predicate IsIdle(s: State, t: nat)
  {
    t < |s.threads| && s.threads[t] == Idle
  }

  ghost predicate CanDo(s: State, step: Step)
  {
    match step
    case ClientRequest(t, c, k, bytes) =>
      IsIdle(s, t) && c < |s.clients| && k < |s.links| && |bytes| >= HEADER_LENGTH
    case ServerRequest(t, k, bytes, pick) =>
      && IsIdle(s, t) && k < |s.links| && |bytes| >= HEADER_LENGTH && WellFormed(bytes, HEADER_LENGTH)
      && Picked(s, pick)
    case Probe(t) => t < |s.threads| && s.threads[t].Searching? && s.cursor < |s.slots|
    case Fill(t) => t < |s.threads| && t < |s.counts| && s.threads[t].Filling?
                    && s.threads[t].slot < |s.slots| && s.threads[t].request < |s.ledger|
                    && |s.threads[t].task.bytes| >= HEADER_LENGTH && s.threads[t].slot + 1 < 0x1_0000_0000
    case ServerAnswer(t, k, r, bytes) =>
      && IsIdle(s, t) && k < |s.links| && |bytes| >= HEADER_LENGTH && |s.slots| >= 1
      && (FairAnswer(s, r, RequestToServer, bytes) || Locate(HopByHop(bytes), |s.slots|) == None)
    case ClientAnswer(t, r, bytes) =>
      && IsIdle(s, t) && |bytes| >= HEADER_LENGTH && |s.slots| >= 1
      && (FairAnswer(s, r, RequestToClient, bytes) || Locate(HopByHop(bytes), |s.slots|) == None)
    case Offer(t) => t < |s.threads| && s.threads[t].Offering?
    case Size(t) => t < |s.threads| && s.threads[t].Sizing? && s.threads[t].sock < |s.queues|
                    && s.queues[s.threads[t].sock].Present?
    case Push(t) => t < |s.threads| && s.threads[t].Pushing? && s.threads[t].sock < |s.queues|
                    && s.queues[s.threads[t].sock].Present?
    case CountDiscard(t) => t < |s.threads| && s.threads[t].Closing? && s.threads[t].uncounted
    case ReleaseSlot(t) => t < |s.threads| && s.threads[t].Closing? && s.threads[t].held.Some?
    case Send(k, o) =>
      && k < |s.queues| && s.queues[k].Present? && s.queues[k].messages != [] && !s.queues[k].popping
      && Possible(s.queues[k].messages[0], o)
    case Pop(k) => k < |s.queues| && s.queues[k].Present? && s.queues[k].popping
    case StartClean(t, k) =>
      && IsIdle(s, t) && k < |s.queues| && s.queues[k].Present? && !s.queues[k].popping && Unused(s, k)
      && (forall u :: 0 <= u < |s.threads| ==> !HoldsQueue(s.threads[u], k))
    case Sweep(t) => t < |s.threads| && s.threads[t].Sweeping? && s.threads[t].messages != []
    case Abandon(r) => r < |s.ledger| && s.ledger[r].phase == InFlight
    case Up(p, sock) => sock < |s.queues| && s.queues[sock] == Absent && Unused(s, sock)
                        && Known(s, p) && SocketOf(s, p) == None
    case Down(p) => Known(s, p)
    case Attach(p) => SocketOf(s, p).Some? && SocketOf(s, p).value < |s.queues|
                      && s.queues[SocketOf(s, p).value] == Absent
    case CerLookup(t, c, bytes) =>
      IsIdle(s, t) && c < |s.clients| && |bytes| >= HEADER_LENGTH && WellFormed(bytes, HEADER_LENGTH)
    case CerCommit(t) => t < |s.threads| && s.threads[t].Registering?
  }

  // --- a request is received and gets a transaction

  function DoServerRequest(s: State, t: nat, k: nat, bytes: seq<Byte>, pick: int): (s': State)
    requires t < |s.threads| && WellFormed(bytes, HEADER_LENGTH)
  {
    var cell := Cell(k, RequestToClient);
    var s1 := s.(counters := Received(s.counters, cell));
    var client := Route(s.session, bytes, pick);
    if client < 0 then SetPc(s1, t, Closing(cell, true, None))
    else SetPc(s1, t, Searching(Task(RequestToClient, k, client, bytes), 1))
  }

  function DoProbe(s: State, t: nat): (s': State)
    requires t < |s.threads| && s.threads[t].Searching? && s.cursor < |s.slots|
  {
    var n, c, task, probes := |s.slots|, s.cursor, s.threads[t].task, s.threads[t].probes;
    var next := if c < n - 1 then c + 1 else 0;
    if !s.slots[c].used then
      var r := |s.ledger|;
      SetPc(s, t, Filling(task, c, r))
      .(slots := s.slots[c := s.slots[c].(used := true, owner := r)],
        cursor := next,
        ledger := s.ledger + [Request(task.kind, task.connection, task.client, task.bytes, c, [], Held(t))])
    else if probes + 1 > n then
      SetPc(s, t, Closing(Cell(task.connection, task.kind), true, None))
    else
      SetPc(s, t, Searching(task, probes + 1)).(cursor := next)
  }

  /** The identifiers are saved in the record and replaced in the message: both of them
      on the way to a server, the hop-by-hop identifier on the way to a client. */
  function DoFill(s: State, t: nat): (s': State)
    requires t < |s.threads| && t < |s.counts| && s.threads[t].Filling?
    requires s.threads[t].slot < |s.slots| && s.threads[t].request < |s.ledger|
    requires |s.threads[t].task.bytes| >= HEADER_LENGTH && s.threads[t].slot + 1 < 0x1_0000_0000
  {
    var task, i, r := s.threads[t].task, s.threads[t].slot, s.threads[t].request;
    var was := s.slots[i];
    var toServer := task.kind == RequestToServer;
    var slot := was.(endToEnd := EndToEnd(task.bytes), hopByHop := HopByHop(task.bytes), client := task.client,
                     answerTo := if toServer then was.answerTo else task.connection);
    var wire := if toServer
                then WithIds(task.bytes, i + 1, EndToEndIds.Generate(task.client, s.config.seed, s.counts[t]))
                else WithHopByHop(task.bytes, i + 1);
    var m := Message(task.kind, task.connection, i, wire, 0, Note(r, task.client, task.bytes));
    SetPc(s, t, Offering(Work(m, i)))
    .(slots := s.slots[i := slot],
      ledger := s.ledger[r := s.ledger[r].(wire := wire)],
      counts := if toServer then s.counts[t := EndToEndIds.Next(s.counts[t])] else s.counts)
  }

  // --- an answer is received and given its old identifiers

  function Restored(slot: Slot, bytes: seq<Byte>): (b: seq<Byte>)
    requires |bytes| >= HEADER_LENGTH
  {
    WithIds(bytes, slot.hopByHop, slot.endToEnd)
  }

  function DoServerAnswer(s: State, t: nat, k: nat, r: nat, bytes: seq<Byte>): (s': State)
    requires t < |s.threads| && |bytes| >= HEADER_LENGTH && |s.slots| >= 1
  {
    var cell := Cell(k, AnswerToClient);
    var s1 := s.(counters := Received(s.counters, cell));
    match Locate(HopByHop(bytes), |s.slots|)
    case None => SetPc(s1, t, Closing(cell, true, None))
    case Some(i) =>
      var slot := s.slots[i];
      var m := Message(AnswerToClient, k, -1, Restored(slot, bytes), 0, Note(r, slot.client, bytes));
      SetPc(s1, t, Offering(Work(m, i))).(ledger := SetPhase(s.ledger, r, Answered(t)))
  }

  function DoClientAnswer(s: State, t: nat, r: nat, bytes: seq<Byte>): (s': State)
    requires t < |s.threads| && |bytes| >= HEADER_LENGTH && |s.slots| >= 1
  {
    match Locate(HopByHop(bytes), |s.slots|)
    case None => s
    case Some(i) =>
      var slot := s.slots[i];
      if slot.answerTo < 0 then s else
      var m := Message(AnswerToServer, slot.answerTo, -1, Restored(slot, bytes), 0, Note(r, slot.client, bytes));
      SetPc(s, t, Offering(Work(m, i)))
      .(counters := Received(s.counters, CellOf(m)), ledger := SetPhase(s.ledger, r, Answered(t)))
  }

  // --- a message is put into a queue, or not

  function Reject(w: Work): (pc: Pc)
  {
    Closing(CellOf(w.message), true, Some(Hold(w.slot, w.message.note.request)))
  }

  function DoOffer(s: State, t: nat): (s': State)
    requires t < |s.threads| && s.threads[t].Offering?
  {
    var w := s.threads[t].work;
    var sock := match Destination(w.message) case None => None case Some(p) => SocketOf(s, p);
    if sock.Some? && sock.value < |s.queues| && s.queues[sock.value].Present?
    then SetPc(s, t, Sizing(w, sock.value))
    else SetPc(s, t, Reject(w))
  }

  function DoSize(s: State, t: nat): (s': State)
    requires t < |s.threads| && s.threads[t].Sizing? && s.threads[t].sock < |s.queues|
    requires s.queues[s.threads[t].sock].Present?
  {
    var w, k := s.threads[t].work, s.threads[t].sock;
    if Length(s.queues[k]) > s.config.maxQueue
    then SetPc(s, t, Reject(w)).(counters := Discarded(s.counters, CellOf(w.message)))
    else SetPc(s, t, Pushing(w, k))
  }

  function DoPush(s: State, t: nat): (s': State)
    requires t < |s.threads| && s.threads[t].Pushing? && s.threads[t].sock < |s.queues|
    requires s.queues[s.threads[t].sock].Present?
  {
    var w, k := s.threads[t].work, s.threads[t].sock;
    var q := s.queues[k];
    var s1 := s.(queues := s.queues[k := q.(messages := q.messages + [w.message])]);
    if IsRequest(w.message.kind)
    then SetPc(s1, t, Idle).(ledger := SetPhase(s.ledger, w.message.note.request, Queued(k)))
    else SetPc(s1, t, Closing(CellOf(w.message), false, Some(Hold(w.slot, w.message.note.request))))
  }

  function DoCountDiscard(s: State, t: nat): (s': State)
    requires t < |s.threads| && s.threads[t].Closing?
  {
    var pc := s.threads[t];
    SetPc(s, t, if pc.held == None then Idle else pc.(uncounted := false))
    .(counters := Discarded(s.counters, pc.cell))
  }

  function DoReleaseSlot(s: State, t: nat): (s': State)
    requires t < |s.threads| && s.threads[t].Closing? && s.threads[t].held.Some?
  {
    var pc := s.threads[t];
    SetPc(s, t, if pc.uncounted then pc.(held := None) else Idle)
    .(slots := Release(s.slots, pc.held.value.slot), ledger := SetPhase(s.ledger, pc.held.value.request, Closed))
  }

  // --- a message leaves a queue

  /** A request is in flight once its last octet is written; one that left the queue
      otherwise keeps its transaction but will not be answered. */
  function PhaseAfterSend(o: Outcome): (p: Phase)
  {
    if o.Wrote? then InFlight else Orphaned
  }

  function LedgerAfterSend(ledger: seq<Request>, m: Message, o: Outcome): (l: seq<Request>)
  {
    if Judge(m, o) in {Done, Lost} && IsRequest(m.kind)
    then SetPhase(ledger, m.note.request, PhaseAfterSend(o)) else ledger
  }

  function DoSend(s: State, k: nat, o: Outcome): (s': State)
    requires k < |s.queues| && s.queues[k].Present? && s.queues[k].messages != []
    requires Possible(s.queues[k].messages[0], o)
  {
    var q := s.queues[k];
    var m := q.messages[0];
    var c := m.connection;
    s.(queues := s.queues[k := q.(messages := QueueAfter(q.messages, o), popping := Judge(m, o) in {Done, Lost})],
       counters := CountersAfter(s.counters, m, o),
       ledger := LedgerAfterSend(s.ledger, m, o),
       links := if Judge(m, o) == Lost && m.kind in {RequestToServer, AnswerToServer} && c < |s.links|
                then s.links[c := s.links[c].(up := false)] else s.links)
  }

  function DoPop(s: State, k: nat): (s': State)
    requires k < |s.queues| && s.queues[k].Present?
  {
    s.(queues := s.queues[k := s.queues[k].(popping := false)])
  }

  function DoStartClean(s: State, t: nat, k: nat): (s': State)
    requires t < |s.threads| && k < |s.queues| && s.queues[k].Present?
  {
    var ms := s.queues[k].messages;
    SetPc(s, t, if ms == [] then Idle else Sweeping(ms))
    .(queues := s.queues[k := Absent],
      ledger := seq(|s.ledger|, i requires 0 <= i < |s.ledger| =>
        if s.ledger[i].phase == Queued(k) then s.ledger[i].(phase := Swept(t)) else s.ledger[i]))
  }

  function DoSweep(s: State, t: nat): (s': State)
    requires t < |s.threads| && s.threads[t].Sweeping? && s.threads[t].messages != []
  {
    var ms := s.threads[t].messages;
    var m := ms[0];
    var s1 := SetPc(s, t, if |ms| == 1 then Idle else Sweeping(ms[1..]))
              .(counters := Discarded(s.counters, CellOf(m)));
    if m.transaction > -1
    then s1.(slots := Release(s.slots, m.transaction), ledger := SetPhase(s.ledger, m.note.request, Closed))
    else s1
  }

  // --- peers come and go

  function SetEndpoint(s: State, p: Peer, l: Endpoint): (s': State)
  {
    match p
    case AtClient(c) => if c < |s.clients| then s.(clients := s.clients[c := l]) else s
    case AtServer(k) => if k < |s.links| then s.(links := s.links[k := l]) else s
  }

  function DoDown(s: State, p: Peer): (s': State)
  {
    match p
    case AtClient(c) => if c < |s.clients| then s.(clients := s.clients[c := s.clients[c].(up := false)]) else s
    case AtServer(k) => if k < |s.links| then s.(links := s.links[k := s.links[k].(up := false)]) else s
  }

  // --- sessions

  function DoCerLookup(s: State, t: nat, c: nat, bytes: seq<Byte>): (s': State)
    requires t < |s.threads| && WellFormed(bytes, HEADER_LENGTH)
  {
    match RegistrationKey(bytes)
    case None => s
    case Some(key) => SetPc(s, t, Registering(c, key, key in s.session))
  }

  /** A key that was found is updated; one that was not is inserted, which fails if
      another thread has inserted it meanwhile. */
  function DoCerCommit(s: State, t: nat): (s': State)
    requires t < |s.threads| && s.threads[t].Registering?
  {
    var pc := s.threads[t];
    var s1 := SetPc(s, t, Idle);
    if pc.found || pc.key !in s.session
    then s1.(session := s.session[pc.key := pc.client])
    else s1
  }

  ghost function Do(s: State, step: Step): (s': State)
    requires CanDo(s, step)
  {
    match step
    case ClientRequest(t, c, k, bytes) =>
      SetPc(s, t, Searching(Task(RequestToServer, k, c, bytes), 1))
      .(counters := Received(s.counters, Cell(k, RequestToServer)))
    case ServerRequest(t, k, bytes, pick) => DoServerRequest(s, t, k, bytes, pick)
    case Probe(t) => DoProbe(s, t)
    case Fill(t) => DoFill(s, t)
    case ServerAnswer(t, k, r, bytes) => DoServerAnswer(s, t, k, r, bytes)
    case ClientAnswer(t, r, bytes) => DoClientAnswer(s, t, r, bytes)
    case Offer(t) => DoOffer(s, t)
    case Size(t) => DoSize(s, t)
    case Push(t) => DoPush(s, t)
    case CountDiscard(t) => DoCountDiscard(s, t)
    case ReleaseSlot(t) => DoReleaseSlot(s, t)
    case Send(k, o) => DoSend(s, k, o)
    case Pop(k) => DoPop(s, k)
    case StartClean(t, k) => DoStartClean(s, t, k)
    case Sweep(t) => DoSweep(s, t)
    case Abandon(r) => s.(ledger := SetPhase(s.ledger, r, Orphaned))
    case Up(p, sock) => SetEndpoint(s, p, Endpoint(true, sock))
    case Down(p) => DoDown(s, p)
    case Attach(p) => s.(queues := s.queues[SocketOf(s, p).value := Present([], p, false)])
    case CerLookup(t, c, bytes) => DoCerLookup(s, t, c, bytes)
    case CerCommit(t) => DoCerCommit(s, t)
  }

  // ----------------------------------------------------------------- runs

  /** The states of a run, one more than it has steps. */
  ghost predicate IsRun(states: seq<State>, steps: seq<Step>)
  {
    && |states| == |steps| + 1
    && Init(states[0])
    && (forall i :: 0 <= i < |steps| ==> CanDo(states[i], steps[i]) && states[i + 1] == Do(states[i], steps[i]))
  }
}
