/** What every step of the proxy keeps: each used record serves exactly one request of
    the ledger, each such request is where the ledger says, and every message in a queue
    or in a thread's hands carries what its request requires. */
module ProxyInvariant {
  import opened Octets
  import opened Codec
  import opened Pending
  import opened Proxy

  // ------------------------------------------------------- records and ledger

  predicate Live(r: Request)
  {
    r.phase != Closed
  }

  /** Used records and live requests name each other. */
  ghost predicate Owners(slots: seq<Slot>, ledger: seq<Request>)
  {
    && (forall i :: 0 <= i < |slots| ==> (slots[i].used <==> slots[i].owner >= 0))
    && (forall i :: 0 <= i < |slots| && slots[i].owner >= 0 ==>
          slots[i].owner < |ledger| && Live(ledger[slots[i].owner]) && ledger[slots[i].owner].slot == i)
    && (forall r :: 0 <= r < |ledger| && Live(ledger[r]) ==>
          ledger[r].slot < |slots| && slots[ledger[r].slot].owner == r)
  }

  /** The record of a request that has been prepared holds what its answer needs, and the
      request went out under the record's number. */
  predicate Recorded(slot: Slot, r: Request)
  {
    && |r.bytes| >= HEADER_LENGTH && |r.wire| == |r.bytes|
    && slot.hopByHop == HopByHop(r.bytes) && slot.endToEnd == EndToEnd(r.bytes) && slot.client == r.client
    && (r.kind == RequestToClient ==> slot.answerTo == r.connection)
    && HopByHop(r.wire) == r.slot + 1
  }

  ghost predicate Records(slots: seq<Slot>, ledger: seq<Request>)
  {
    forall r :: 0 <= r < |ledger| && Live(ledger[r]) && ledger[r].wire != [] ==>
      ledger[r].slot < |slots| && Recorded(slots[ledger[r].slot], ledger[r])
  }

  // ----------------------------------------------------------------- messages

  /** A queued request is the request of the ledger, under its record's number. */
  predicate RequestMessage(m: Message, r: Request)
  {
    && m.kind == r.kind && IsRequest(m.kind) && m.connection == r.connection
    && m.transaction == r.slot && m.bytes == r.wire != [] && m.note.client == r.client
  }

  /** An answer goes back to where its request came from, with the identifiers that
      request had, and otherwise as it was received. */
  predicate AnswerMessage(m: Message, r: Request)
  {
    && m.transaction == -1
    && |r.bytes| >= HEADER_LENGTH && |m.note.received| >= HEADER_LENGTH
    && m.bytes == WithIds(m.note.received, HopByHop(r.bytes), EndToEnd(r.bytes))
    && (m.kind == AnswerToClient ==> r.kind == RequestToServer && m.note.client == r.client)
    && (m.kind == AnswerToServer ==> r.kind == RequestToClient && m.connection == r.connection)
  }

  predicate Carries(m: Message, r: nat)
  {
    IsRequest(m.kind) && m.note.request == r
  }

  ghost predicate Carried(ms: seq<Message>, r: nat)
  {
    exists i :: 0 <= i < |ms| && Carries(ms[i], r)
  }

  /** No request is in the list twice. */
  ghost predicate Distinct(ms: seq<Message>)
  {
    forall i, j :: 0 <= i < j < |ms| && IsRequest(ms[i].kind) && IsRequest(ms[j].kind) ==>
      ms[i].note.request != ms[j].note.request
  }

  // ------------------------------------------------------------------ threads

  predicate BelongsTo(p: Phase, t: nat)
  {
    p == Held(t) || p == Answered(t) || p == Swept(t)
  }

  ghost predicate Holds(pc: Pc, r: nat)
  {
    match pc
    case Filling(_, _, request) => request == r
    case Offering(w) => w.message.note.request == r
    case Sizing(w, _) => w.message.note.request == r
    case Pushing(w, _) => w.message.note.request == r
    case Closing(_, _, held) => held.Some? && held.value.request == r
    case Sweeping(ms) => Carried(ms, r)
    case _ => false
  }

  predicate WorkOk(t: nat, w: Work, ledger: seq<Request>)
  {
    var m, r := w.message, w.message.note.request;
    && r < |ledger| && ledger[r].slot == w.slot && m.sent == 0 && m.bytes != []
    && if IsRequest(m.kind) then ledger[r].phase == Held(t) && RequestMessage(m, ledger[r])
       else ledger[r].phase == Answered(t) && AnswerMessage(m, ledger[r])
  }

  predicate SweptOk(m: Message, t: nat, ledger: seq<Request>)
  {
    if IsRequest(m.kind)
    then m.note.request < |ledger| && ledger[m.note.request].phase == Swept(t)
         && m.transaction == ledger[m.note.request].slot
    else m.transaction == -1
  }

  predicate TaskOk(task: Task)
  {
    IsRequest(task.kind) && |task.bytes| >= HEADER_LENGTH
  }

  ghost predicate PcOk(t: nat, pc: Pc, ledger: seq<Request>, n: nat)
  {
    match pc
    case Searching(task, probes) => TaskOk(task) && 1 <= probes <= n
    case Filling(task, slot, r) =>
      && TaskOk(task) && r < |ledger|
      && ledger[r] == Request(task.kind, task.connection, task.client, task.bytes, slot, [], Held(t))
    case Offering(w) => WorkOk(t, w, ledger)
    case Sizing(w, _) => WorkOk(t, w, ledger)
    case Pushing(w, _) => WorkOk(t, w, ledger)
    case Closing(_, uncounted, held) =>
      && (uncounted || held.Some?)
      && (held.Some? ==>
            && held.value.request < |ledger| && ledger[held.value.request].slot == held.value.slot
            && ledger[held.value.request].phase in {Held(t), Answered(t)})
    case Sweeping(ms) => Distinct(ms) && forall i :: 0 <= i < |ms| ==> SweptOk(ms[i], t, ledger)
    case _ => true
  }

  ghost predicate ThreadOk(t: nat, pc: Pc, ledger: seq<Request>, n: nat)
  {
    && PcOk(t, pc, ledger, n)
    && (forall r :: 0 <= r < |ledger| && BelongsTo(ledger[r].phase, t) ==> Holds(pc, r))
  }

  ghost predicate Threads(threads: seq<Pc>, ledger: seq<Request>, n: nat)
  {
    forall t :: 0 <= t < |threads| ==> ThreadOk(t, threads[t], ledger, n)
  }

  // ------------------------------------------------------------------- queues

  predicate QueuedOk(m: Message, k: nat, home: Peer, ledger: seq<Request>)
  {
    && Destination(m) == Some(home) && m.note.request < |ledger| && m.bytes != []
    && if IsRequest(m.kind)
       then ledger[m.note.request].phase == Queued(k) && RequestMessage(m, ledger[m.note.request])
       else AnswerMessage(m, ledger[m.note.request])
  }

  ghost predicate QueueOk(k: nat, q: Queue, ledger: seq<Request>)
  {
    && (q.Present? ==>
          && Distinct(q.messages)
          && forall i :: 0 <= i < |q.messages| ==> QueuedOk(q.messages[i], k, q.home, ledger))
    && (forall r :: 0 <= r < |ledger| && ledger[r].phase == Queued(k) ==> q.Present? && Carried(q.messages, r))
  }

  ghost predicate Queues(queues: seq<Queue>, ledger: seq<Request>)
  {
    forall k :: 0 <= k < |queues| ==> QueueOk(k, queues[k], ledger)
  }

  /** Phases speak of threads and sockets there are. */
  ghost predicate Ranges(ledger: seq<Request>, threads: nat, queues: nat)
  {
    forall r :: 0 <= r < |ledger| ==>
      match ledger[r].phase
      case Held(t) => t < threads
      case Answered(t) => t < threads
      case Swept(t) => t < threads
      case Queued(k) => k < queues
      case _ => true
  }

  // -------------------------------------------------------------------- homes

  /** The queue behind the socket of a peer in service is that peer's; no two peers
      in service share a socket; and a thread about to use a queue found it as its message's destination. */
  ghost predicate Homes(s: State)
  {
    && (forall p: Peer :: SocketOf(s, p).Some? ==>
          SocketOf(s, p).value < |s.queues|
          && (s.queues[SocketOf(s, p).value].Present? ==> s.queues[SocketOf(s, p).value].home == p))
    && (forall p: Peer, q: Peer :: SocketOf(s, p).Some? && SocketOf(s, p) == SocketOf(s, q) ==> p == q)
    && (forall t :: 0 <= t < |s.threads| && (s.threads[t].Sizing? || s.threads[t].Pushing?) ==>
          && s.threads[t].sock < |s.queues| && s.queues[s.threads[t].sock].Present?
          && Destination(s.threads[t].work.message) == Some(s.queues[s.threads[t].sock].home))
  }

  ghost predicate Inv(s: State)
  {
    && 1 <= |s.slots| < 0x1_0000_0000 && s.cursor < |s.slots| && |s.counts| == |s.threads|
    && Owners(s.slots, s.ledger)
    && Records(s.slots, s.ledger)
    && Threads(s.threads, s.ledger, |s.slots|)
    && Queues(s.queues, s.ledger)
    && Ranges(s.ledger, |s.threads|, |s.queues|)
    && Homes(s)
  }

  // -------------------------------------------------------------------- frame

  /** Phases that a step of thread `t` on socket `k` may take a request from or to. */
  predicate Mine(p: Phase, t: int, k: int)
  {
    match p
    case Held(u) => u == t
    case Answered(u) => u == t
    case Swept(u) => u == t
    case Queued(j) => j == k
    case _ => true
  }

  /** What a request is never changes; where it is may, within reach of the step. */
  predicate Moves(a: Request, b: Request, t: int, k: int)
  {
    a == b || (&& Mine(a.phase, t, k) && Mine(b.phase, t, k)
               && a == b.(phase := a.phase, wire := a.wire))
  }

  ghost predicate Touches(ledger: seq<Request>, ledger': seq<Request>, t: int, k: int)
  {
    && |ledger| <= |ledger'|
    && (forall r :: 0 <= r < |ledger| ==> Moves(ledger[r], ledger'[r], t, k))
    && (forall r :: |ledger| <= r < |ledger'| ==> Mine(ledger'[r].phase, t, k))
  }

  lemma ThreadFrame(u: nat, pc: Pc, ledger: seq<Request>, ledger': seq<Request>, t: int, k: int, n: nat)
    requires ThreadOk(u, pc, ledger, n) && Touches(ledger, ledger', t, k) && u != t
    ensures ThreadOk(u, pc, ledger', n)
  {
    assert forall r :: 0 <= r < |ledger| && BelongsTo(ledger[r].phase, u) ==> ledger'[r] == ledger[r];
    if pc.Sweeping? {
      assert forall i :: 0 <= i < |pc.messages| ==>
        SweptOk(pc.messages[i], u, ledger) && SweptOk(pc.messages[i], u, ledger');
    }
  }

  lemma QueueFrame(j: nat, q: Queue, ledger: seq<Request>, ledger': seq<Request>, t: int, k: int)
    requires QueueOk(j, q, ledger) && Touches(ledger, ledger', t, k) && j != k
    ensures QueueOk(j, q, ledger')
  {
    if q.Present? {
      forall i | 0 <= i < |q.messages| ensures QueuedOk(q.messages[i], j, q.home, ledger') {
        assert QueuedOk(q.messages[i], j, q.home, ledger);
      }
    }
  }

  /** Threads other than `t` and queues other than `k` are not disturbed. */
  lemma Others(s: State, s': State, t: int, k: int)
    requires Threads(s.threads, s.ledger, |s.slots|) && Queues(s.queues, s.ledger)
    requires |s'.slots| == |s.slots| && |s'.threads| == |s.threads| && |s'.queues| == |s.queues|
    requires Touches(s.ledger, s'.ledger, t, k)
    requires forall u :: 0 <= u < |s.threads| && u != t ==> s'.threads[u] == s.threads[u]
    requires forall j :: 0 <= j < |s.queues| && j != k ==> s'.queues[j] == s.queues[j]
    ensures forall u :: 0 <= u < |s.threads| && u != t ==> ThreadOk(u, s'.threads[u], s'.ledger, |s'.slots|)
    ensures forall j :: 0 <= j < |s.queues| && j != k ==> QueueOk(j, s'.queues[j], s'.ledger)
  {
    forall u | 0 <= u < |s.threads| && u != t ensures ThreadOk(u, s'.threads[u], s'.ledger, |s'.slots|) {
      ThreadFrame(u, s.threads[u], s.ledger, s'.ledger, t, k, |s.slots|);
    }
    forall j | 0 <= j < |s.queues| && j != k ensures QueueOk(j, s'.queues[j], s'.ledger) {
      QueueFrame(j, s.queues[j], s.ledger, s'.ledger, t, k);
    }
  }
}
