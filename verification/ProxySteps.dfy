/** Every step of the proxy keeps the invariant. */
module ProxySteps {
  import opened Octets
  import opened Codec
  import opened Pending
  import opened Proxy
  import opened ProxyInvariant
  import EndToEndIds

  // ------------------------------------------------------------ putting together

  lemma RangesKept(s: State, s': State, t: int, k: int)
    requires Ranges(s.ledger, |s.threads|, |s.queues|) && Touches(s.ledger, s'.ledger, t, k)
    requires |s'.threads| == |s.threads| && |s'.queues| == |s.queues| && t < |s.threads| && k < |s.queues|
    ensures Ranges(s'.ledger, |s'.threads|, |s'.queues|)
  {
    forall r | 0 <= r < |s'.ledger|
      ensures match s'.ledger[r].phase
              case Held(t) => t < |s.threads|
              case Answered(t) => t < |s.threads|
              case Swept(t) => t < |s.threads|
              case Queued(k) => k < |s.queues|
              case _ => true
    {
      if r < |s.ledger| {
        assert Moves(s.ledger[r], s'.ledger[r], t, k);
      }
    }
  }

  /** The step kept its own thread and queue in order; the rest follows. */
  lemma Assemble(s: State, s': State, t: int, k: int)
    requires Inv(s) && t < |s.threads| && k < |s.queues|
    requires |s'.slots| == |s.slots| && |s'.threads| == |s.threads| && |s'.queues| == |s.queues|
    requires s'.cursor < |s'.slots| && |s'.counts| == |s'.threads|
    requires Touches(s.ledger, s'.ledger, t, k)
    requires forall u :: 0 <= u < |s.threads| && u != t ==> s'.threads[u] == s.threads[u]
    requires forall j :: 0 <= j < |s.queues| && j != k ==> s'.queues[j] == s.queues[j]
    requires 0 <= t ==> ThreadOk(t, s'.threads[t], s'.ledger, |s'.slots|)
    requires 0 <= k ==> QueueOk(k, s'.queues[k], s'.ledger)
    requires Owners(s'.slots, s'.ledger) && Records(s'.slots, s'.ledger) && Homes(s')
    ensures Inv(s')
  {
    Others(s, s', t, k);
    RangesKept(s, s', t, k);
  }

  predicate SameHomes(q: seq<Queue>, q': seq<Queue>)
  {
    |q| == |q'| && forall j :: 0 <= j < |q| ==>
      (q[j].Present? <==> q'[j].Present?) && (q[j].Present? ==> q[j].home == q'[j].home)
  }

  lemma HomesKept(s: State, s': State, t: int)
    requires Homes(s) && SameHomes(s.queues, s'.queues)
    requires forall p: Peer :: SocketOf(s', p).Some? ==> SocketOf(s', p) == SocketOf(s, p)
    requires |s'.threads| == |s.threads|
    requires forall u :: 0 <= u < |s.threads| && u != t ==> s'.threads[u] == s.threads[u]
    requires 0 <= t < |s.threads| && (s'.threads[t].Sizing? || s'.threads[t].Pushing?) ==>
               && s'.threads[t].sock < |s.queues| && s.queues[s'.threads[t].sock].Present?
               && Destination(s'.threads[t].work.message) == Some(s.queues[s'.threads[t].sock].home)
    ensures Homes(s')
  {
    forall u | 0 <= u < |s'.threads| && (s'.threads[u].Sizing? || s'.threads[u].Pushing?)
      ensures && s'.threads[u].sock < |s'.queues| && s'.queues[s'.threads[u].sock].Present?
              && Destination(s'.threads[u].work.message) == Some(s'.queues[s'.threads[u].sock].home)
    {
    }
  }

  lemma Untouched(ledger: seq<Request>, t: int, k: int)
    ensures Touches(ledger, ledger, t, k)
  {
  }

  // --------------------------------------- a thread changes its place, nothing else

  /** Steps of a thread that leave records, ledger and queues alone. */
  lemma PcStep(s: State, s': State, t: nat, pc: Pc)
    requires Inv(s) && t < |s.threads|
    requires s'.threads == s.threads[t := pc] && s'.slots == s.slots && s'.ledger == s.ledger
    requires s'.queues == s.queues && s'.clients == s.clients && s'.links == s.links && s'.counts == s.counts
    requires s'.cursor < |s.slots|
    requires PcOk(t, pc, s.ledger, |s.slots|)
    requires forall r :: Holds(s.threads[t], r) ==> Holds(pc, r)
    requires pc.Sizing? || pc.Pushing? ==>
               && pc.sock < |s.queues| && s.queues[pc.sock].Present?
               && Destination(pc.work.message) == Some(s.queues[pc.sock].home)
    ensures Inv(s')
  {
    Untouched(s.ledger, t, -1);
    HomesKept(s, s', t);
    assert ThreadOk(t, s.threads[t], s.ledger, |s.slots|);
    Assemble(s, s', t, -1);
  }

  lemma ClientRequestKeeps(s: State, t: nat, c: nat, k: nat, bytes: seq<Byte>)
    requires Inv(s) && CanDo(s, ClientRequest(t, c, k, bytes))
    ensures Inv(Do(s, ClientRequest(t, c, k, bytes)))
  {
    PcStep(s, Do(s, ClientRequest(t, c, k, bytes)), t,
           Searching(Task(RequestToServer, k, c, bytes), 1));
  }

  lemma ServerRequestKeeps(s: State, t: nat, k: nat, bytes: seq<Byte>, pick: int)
    requires Inv(s) && CanDo(s, ServerRequest(t, k, bytes, pick))
    ensures Inv(DoServerRequest(s, t, k, bytes, pick))
  {
    var s' := DoServerRequest(s, t, k, bytes, pick);
    PcStep(s, s', t, s'.threads[t]);
  }

  lemma OfferKeeps(s: State, t: nat)
    requires Inv(s) && t < |s.threads| && s.threads[t].Offering?
    ensures Inv(DoOffer(s, t))
  {
    var s' := DoOffer(s, t);
    assert ThreadOk(t, s.threads[t], s.ledger, |s.slots|);
    PcStep(s, s', t, s'.threads[t]);
  }

  lemma SizeKeeps(s: State, t: nat)
    requires Inv(s) && t < |s.threads| && s.threads[t].Sizing?
    requires s.threads[t].sock < |s.queues| && s.queues[s.threads[t].sock].Present?
    ensures Inv(DoSize(s, t))
  {
    var s' := DoSize(s, t);
    assert ThreadOk(t, s.threads[t], s.ledger, |s.slots|);
    PcStep(s, s', t, s'.threads[t]);
  }

  lemma CountDiscardKeeps(s: State, t: nat)
    requires Inv(s) && t < |s.threads| && s.threads[t].Closing? && s.threads[t].uncounted
    ensures Inv(DoCountDiscard(s, t))
  {
    var s' := DoCountDiscard(s, t);
    assert ThreadOk(t, s.threads[t], s.ledger, |s.slots|);
    PcStep(s, s', t, s'.threads[t]);
  }

  lemma CerLookupKeeps(s: State, t: nat, c: nat, bytes: seq<Byte>)
    requires Inv(s) && IsIdle(s, t) && WellFormed(bytes, HEADER_LENGTH)
    ensures Inv(DoCerLookup(s, t, c, bytes))
  {
    if RegistrationKey(bytes).Some? {
      var s' := DoCerLookup(s, t, c, bytes);
      PcStep(s, s', t, s'.threads[t]);
    }
  }

  lemma CerCommitKeeps(s: State, t: nat)
    requires Inv(s) && t < |s.threads| && s.threads[t].Registering?
    ensures Inv(DoCerCommit(s, t))
  {
    PcStep(s, DoCerCommit(s, t), t, Idle);
  }

  // --------------------------------------------------- a search, and a record filled

  lemma OwnersTake(slots: seq<Slot>, ledger: seq<Request>, c: nat, q: Request)
    requires Owners(slots, ledger) && c < |slots| && !slots[c].used && q.slot == c && Live(q)
    ensures Owners(slots[c := slots[c].(used := true, owner := |ledger|)], ledger + [q])
  {
  }

  lemma RecordsTake(slots: seq<Slot>, ledger: seq<Request>, c: nat, q: Request)
    requires Owners(slots, ledger) && Records(slots, ledger) && c < |slots| && !slots[c].used && q.wire == []
    ensures Records(slots[c := slots[c].(used := true, owner := |ledger|)], ledger + [q])
  {
  }

  lemma ProbeKeeps(s: State, t: nat)
    requires Inv(s) && t < |s.threads| && s.threads[t].Searching?
    ensures Inv(DoProbe(s, t))
  {
    var s', c, task := DoProbe(s, t), s.cursor, s.threads[t].task;
    assert ThreadOk(t, s.threads[t], s.ledger, |s.slots|);
    if s.slots[c].used {
      PcStep(s, s', t, s'.threads[t]);
    } else {
      TakeKeeps(s, s', t, Request(task.kind, task.connection, task.client, task.bytes, c, [], Held(t)));
    }
  }

  lemma TakeKeeps(s: State, s': State, t: nat, q: Request)
    requires Inv(s) && t < |s.threads| && !s.slots[s.cursor].used && s.threads[t].Searching?
    requires TaskOk(s.threads[t].task) && q.slot == s.cursor && q.phase == Held(t) && q.wire == []
    requires s'.slots == s.slots[q.slot := s.slots[q.slot].(used := true, owner := |s.ledger|)]
    requires s'.ledger == s.ledger + [q] && s'.threads == s.threads[t := Filling(s.threads[t].task, q.slot, |s.ledger|)]
    requires q == Request(s.threads[t].task.kind, s.threads[t].task.connection, s.threads[t].task.client,
                          s.threads[t].task.bytes, q.slot, [], Held(t))
    requires s'.queues == s.queues && s'.clients == s.clients && s'.links == s.links && s'.counts == s.counts
    requires s'.cursor < |s.slots|
    ensures Inv(s')
  {
    OwnersTake(s.slots, s.ledger, q.slot, q);
    RecordsTake(s.slots, s.ledger, q.slot, q);
    HomesKept(s, s', t);
    assert ThreadOk(t, s.threads[t], s.ledger, |s.slots|);
    Assemble(s, s', t, -1);
  }

  /** A record is filled and its request prepared for the wire. */
  lemma OwnersFill(slots: seq<Slot>, ledger: seq<Request>, i: nat, slot: Slot, r: nat, wire: seq<Byte>)
    requires Owners(slots, ledger) && i < |slots| && r < |ledger|
    requires slot.used == slots[i].used && slot.owner == slots[i].owner
    ensures Owners(slots[i := slot], ledger[r := ledger[r].(wire := wire)])
  {
    var slots', ledger' := slots[i := slot], ledger[r := ledger[r].(wire := wire)];
    assert forall x :: 0 <= x < |ledger| ==> ledger'[x].slot == ledger[x].slot && Live(ledger'[x]) == Live(ledger[x]);
    assert forall x :: 0 <= x < |slots| ==> slots'[x].used == slots[x].used && slots'[x].owner == slots[x].owner;
  }

  lemma RecordsFill(slots: seq<Slot>, ledger: seq<Request>, i: nat, slot: Slot, r: nat, wire: seq<Byte>)
    requires Owners(slots, ledger) && Records(slots, ledger) && i < |slots| && r < |ledger|
    requires Live(ledger[r]) && ledger[r].slot == i && Recorded(slot, ledger[r].(wire := wire))
    ensures Records(slots[i := slot], ledger[r := ledger[r].(wire := wire)])
  {
    assert slots[i].owner == r;
  }

  lemma FillKeeps(s: State, t: nat)
    requires Inv(s) && CanDo(s, Fill(t))
    ensures Inv(DoFill(s, t))
  {
    var s', i, r := DoFill(s, t), s.threads[t].slot, s.threads[t].request;
    assert ThreadOk(t, s.threads[t], s.ledger, |s.slots|);
    FilledRecord(s, t);
    FillAssemble(s, s', t, i, r, s'.slots[i], s'.ledger[r].wire, s'.threads[t]);
  }

  lemma FillAssemble(s: State, s': State, t: nat, i: nat, r: nat, slot: Slot, wire: seq<Byte>, pc: Pc)
    requires Inv(s) && t < |s.threads| && i < |s.slots| && r < |s.ledger|
    requires s.threads[t].Filling? && s.threads[t].request == r
    requires s.ledger[r].phase == Held(t) && s.ledger[r].slot == i
    requires slot.used == s.slots[i].used && slot.owner == s.slots[i].owner
    requires Recorded(slot, s.ledger[r].(wire := wire))
    requires s'.slots == s.slots[i := slot] && s'.ledger == s.ledger[r := s.ledger[r].(wire := wire)]
    requires s'.threads == s.threads[t := pc] && |s'.counts| == |s.counts| && s'.cursor == s.cursor
    requires s'.queues == s.queues && s'.clients == s.clients && s'.links == s.links
    requires pc.Offering? && pc.work.message.note.request == r && WorkOk(t, pc.work, s'.ledger)
    ensures Inv(s')
  {
    OwnersFill(s.slots, s.ledger, i, slot, r, wire);
    RecordsFill(s.slots, s.ledger, i, slot, r, wire);
    HomesKept(s, s', t);
    assert ThreadOk(t, s.threads[t], s.ledger, |s.slots|);
    Assemble(s, s', t, -1);
  }

  lemma FilledRecord(s: State, t: nat)
    requires CanDo(s, Fill(t)) && PcOk(t, s.threads[t], s.ledger, |s.slots|)
    ensures var s', i, r := DoFill(s, t), s.threads[t].slot, s.threads[t].request;
            && Recorded(s'.slots[i], s'.ledger[r])
            && WorkOk(t, s'.threads[t].work, s'.ledger)
  {
    var s', task, i, r := DoFill(s, t), s.threads[t].task, s.threads[t].slot, s.threads[t].request;
    ReplacedHop(task.bytes, i + 1, EndToEndIds.Generate(task.client, s.config.seed, s.counts[t]));
    assert s'.ledger[r] == s.ledger[r].(wire := s'.ledger[r].wire);
    assert HopByHop(s'.ledger[r].wire) == i + 1 && |s'.ledger[r].wire| == |task.bytes|;
  }

  lemma ReplacedHop(m: seq<Byte>, hop: Word, end: Word)
    requires |m| >= HEADER_LENGTH
    ensures HopByHop(WithIds(m, hop, end)) == hop && |WithIds(m, hop, end)| == |m|
    ensures HopByHop(WithHopByHop(m, hop)) == hop && |WithHopByHop(m, hop)| == |m|
  {
    IdsReplaced(m, hop, end);
  }

  // -------------------------------------------------- a request changes its phase

  lemma PhaseKept(slots: seq<Slot>, ledger: seq<Request>, r: nat, p: Phase)
    requires Owners(slots, ledger) && Records(slots, ledger) && r < |ledger|
    requires Live(ledger[r]) && p != Closed
    ensures Owners(slots, SetPhase(ledger, r, p)) && Records(slots, SetPhase(ledger, r, p))
  {
    var ledger' := SetPhase(ledger, r, p);
    assert forall x :: 0 <= x < |ledger| ==>
      ledger'[x] == ledger[x].(phase := ledger'[x].phase) && Live(ledger'[x]) == Live(ledger[x]);
  }

  lemma PhaseClosed(slots: seq<Slot>, ledger: seq<Request>, r: nat)
    requires Owners(slots, ledger) && Records(slots, ledger) && r < |ledger| && Live(ledger[r])
    ensures Owners(Release(slots, ledger[r].slot), SetPhase(ledger, r, Closed))
    ensures Records(Release(slots, ledger[r].slot), SetPhase(ledger, r, Closed))
  {
    var i := ledger[r].slot;
    var slots', ledger' := Release(slots, i), SetPhase(ledger, r, Closed);
    assert slots[i].owner == r;
    assert forall x :: 0 <= x < |ledger| && x != r ==> ledger'[x] == ledger[x];
    assert forall x :: 0 <= x < |slots| && x != i ==> slots'[x] == slots[x];
    assert forall x :: 0 <= x < |ledger| && x != r && Live(ledger[x]) ==> ledger[x].slot != i;
  }

  lemma PhaseTouches(ledger: seq<Request>, r: nat, p: Phase, t: int, k: int)
    requires r < |ledger| && Mine(ledger[r].phase, t, k) && Mine(p, t, k)
    ensures Touches(ledger, SetPhase(ledger, r, p), t, k)
  {
  }

  // ------------------------------------------------------------------- answers

  /** The identifier an answer echoes selects the record of its request, and the record
      still holds what that request had. */
  lemma AnswerFindsRecord(s: State, r: nat, kind: Kind, bytes: seq<Byte>)
    requires Inv(s) && FairAnswer(s, r, kind, bytes)
    ensures s.ledger[r].slot < |s.slots|
    ensures Locate(HopByHop(bytes), |s.slots|) == Some(s.ledger[r].slot)
    ensures Recorded(s.slots[s.ledger[r].slot], s.ledger[r])
  {
    assert Live(s.ledger[r]) && s.ledger[r].wire != [];
    LocateRange(HopByHop(bytes), |s.slots|);
  }

  /** A thread takes up the answer to request `r`. */
  lemma AnswerKeeps(s: State, s': State, t: nat, r: nat, w: Work)
    requires Inv(s) && IsIdle(s, t) && r < |s.ledger| && s.ledger[r].phase == InFlight
    requires s'.slots == s.slots && s'.ledger == SetPhase(s.ledger, r, Answered(t))
    requires s'.threads == s.threads[t := Offering(w)] && s'.counts == s.counts && s'.cursor == s.cursor
    requires s'.queues == s.queues && s'.clients == s.clients && s'.links == s.links
    requires w.message.note.request == r && w.slot == s.ledger[r].slot && w.message.sent == 0
    requires !IsRequest(w.message.kind) && AnswerMessage(w.message, s.ledger[r])
    ensures Inv(s')
  {
    PhaseKept(s.slots, s.ledger, r, Answered(t));
    PhaseTouches(s.ledger, r, Answered(t), t, -1);
    HomesKept(s, s', t);
    assert ThreadOk(t, s.threads[t], s.ledger, |s.slots|);
    Assemble(s, s', t, -1);
  }

  lemma ServerAnswerKeeps(s: State, t: nat, k: nat, r: nat, bytes: seq<Byte>)
    requires Inv(s) && IsIdle(s, t) && |bytes| >= HEADER_LENGTH
    requires FairAnswer(s, r, RequestToServer, bytes) || Locate(HopByHop(bytes), |s.slots|) == None
    ensures Inv(DoServerAnswer(s, t, k, r, bytes))
  {
    var s' := DoServerAnswer(s, t, k, r, bytes);
    if Locate(HopByHop(bytes), |s.slots|) == None {
      PcStep(s, s', t, s'.threads[t]);
    } else {
      AnswerFindsRecord(s, r, RequestToServer, bytes);
      AnswerKeeps(s, s', t, r, s'.threads[t].work);
    }
  }

  lemma ClientAnswerKeeps(s: State, t: nat, r: nat, bytes: seq<Byte>)
    requires Inv(s) && IsIdle(s, t) && |bytes| >= HEADER_LENGTH
    requires FairAnswer(s, r, RequestToClient, bytes) || Locate(HopByHop(bytes), |s.slots|) == None
    ensures Inv(DoClientAnswer(s, t, r, bytes))
  {
    if Locate(HopByHop(bytes), |s.slots|).Some? {
      AnswerFindsRecord(s, r, RequestToClient, bytes);
      var s' := DoClientAnswer(s, t, r, bytes);
      AnswerKeeps(s, s', t, r, s'.threads[t].work);
    }
  }

  // ------------------------------------------------------- into a queue, or let go

  lemma DistinctAppend(ms: seq<Message>, m: Message)
    requires Distinct(ms)
    requires IsRequest(m.kind) ==>
               forall i :: 0 <= i < |ms| && IsRequest(ms[i].kind) ==> ms[i].note.request != m.note.request
    ensures Distinct(ms + [m])
  {
  }

  lemma CarriedAppend(ms: seq<Message>, m: Message, r: nat)
    ensures Carried(ms, r) || Carries(m, r) ==> Carried(ms + [m], r)
  {
    if Carried(ms, r) {
      var i :| 0 <= i < |ms| && Carries(ms[i], r);
      assert (ms + [m])[i] == ms[i];
    } else if Carries(m, r) {
      assert (ms + [m])[|ms|] == m;
    }
  }

  /** The queue of socket `k` with a message appended, in a ledger that may differ in
      the phase of that message's request. */
  lemma QueueAppend(k: nat, q: Queue, ledger: seq<Request>, ledger': seq<Request>, m: Message)
    requires QueueOk(k, q, ledger) && q.Present? && m.note.request < |ledger|
    requires if IsRequest(m.kind)
             then ledger[m.note.request].phase != Queued(k) && ledger' == SetPhase(ledger, m.note.request, Queued(k))
             else ledger' == ledger
    requires QueuedOk(m, k, q.home, ledger')
    ensures QueueOk(k, q.(messages := q.messages + [m]), ledger')
  {
    var ms := q.messages;
    forall i | 0 <= i < |ms| ensures QueuedOk(ms[i], k, q.home, ledger') {
      assert QueuedOk(ms[i], k, q.home, ledger);
    }
    DistinctAppend(ms, m);
    forall r | 0 <= r < |ledger'| && ledger'[r].phase == Queued(k) ensures Carried(ms + [m], r) {
      CarriedAppend(ms, m, r);
    }
  }

  lemma PushKeeps(s: State, t: nat)
    requires Inv(s) && t < |s.threads| && s.threads[t].Pushing?
    requires s.threads[t].sock < |s.queues| && s.queues[s.threads[t].sock].Present?
    ensures Inv(DoPush(s, t))
  {
    var s', m, k := DoPush(s, t), s.threads[t].work.message, s.threads[t].sock;
    var r := m.note.request;
    assert ThreadOk(t, s.threads[t], s.ledger, |s.slots|);
    assert QueueOk(k, s.queues[k], s.ledger);
    QueueAppend(k, s.queues[k], s.ledger, s'.ledger, m);
    if IsRequest(m.kind) {
      PhaseKept(s.slots, s.ledger, r, Queued(k));
      PhaseTouches(s.ledger, r, Queued(k), t, k);
    } else {
      Untouched(s.ledger, t, k);
    }
    HomesKept(s, s', t);
    Assemble(s, s', t, k);
  }

  lemma ReleaseSlotKeeps(s: State, t: nat)
    requires Inv(s) && t < |s.threads| && s.threads[t].Closing? && s.threads[t].held.Some?
    ensures Inv(DoReleaseSlot(s, t))
  {
    var s', r := DoReleaseSlot(s, t), s.threads[t].held.value.request;
    assert ThreadOk(t, s.threads[t], s.ledger, |s.slots|);
    PhaseClosed(s.slots, s.ledger, r);
    PhaseTouches(s.ledger, r, Closed, t, -1);
    HomesKept(s, s', t);
    Assemble(s, s', t, -1);
  }

  // ------------------------------------------------------------------- out of a queue

  lemma CarriedTail(ms: seq<Message>, r: nat)
    requires Carried(ms, r) && !Carries(ms[0], r)
    ensures Carried(ms[1..], r)
  {
    var i :| 0 <= i < |ms| && Carries(ms[i], r);
    assert ms[1..][i - 1] == ms[i];
  }

  lemma TailOk(ms: seq<Message>, i: nat)
    requires Distinct(ms) && i < |ms| - 1
    ensures ms[1..][i] == ms[i + 1] && Distinct(ms[1..])
    ensures IsRequest(ms[0].kind) && IsRequest(ms[i + 1].kind) ==> ms[0].note.request != ms[i + 1].note.request
  {
  }

  /** The queue without its first message, whose request has moved on. */
  lemma QueueTail(k: nat, q: Queue, ledger: seq<Request>, ledger': seq<Request>, p: Phase)
    requires QueueOk(k, q, ledger) && q.Present? && q.messages != [] && !p.Queued?
    requires if IsRequest(q.messages[0].kind)
             then ledger' == SetPhase(ledger, q.messages[0].note.request, p) else ledger' == ledger
    ensures QueueOk(k, q.(messages := q.messages[1..]), ledger')
  {
    var ms := q.messages;
    var tail := ms[1..];
    assert QueuedOk(ms[0], k, q.home, ledger);
    forall i | 0 <= i < |tail| ensures QueuedOk(tail[i], k, q.home, ledger') {
      TailOk(ms, i);
      assert QueuedOk(ms[i + 1], k, q.home, ledger);
    }
    forall r | 0 <= r < |ledger'| && ledger'[r].phase == Queued(k) ensures Carried(tail, r) {
      CarriedTail(ms, r);
    }
  }

  lemma QueueFrontSent(k: nat, q: Queue, ledger: seq<Request>, n: nat)
    requires QueueOk(k, q, ledger) && q.Present? && q.messages != []
    ensures QueueOk(k, q.(messages := [q.messages[0].(sent := n)] + q.messages[1..]), ledger)
  {
    var ms := q.messages;
    var ms' := [ms[0].(sent := n)] + ms[1..];
    assert forall i :: 0 <= i < |ms| ==> ms'[i] == ms[i].(sent := ms'[i].sent);
    forall i | 0 <= i < |ms'| ensures QueuedOk(ms'[i], k, q.home, ledger) {
      assert QueuedOk(ms[i], k, q.home, ledger);
    }
    forall r | 0 <= r < |ledger| && ledger[r].phase == Queued(k) ensures Carried(ms', r) {
      var i :| 0 <= i < |ms| && Carries(ms[i], r);
      assert Carries(ms'[i], r);
    }
  }

  lemma SendQueueOk(k: nat, q: Queue, ledger: seq<Request>, o: Outcome)
    requires QueueOk(k, q, ledger) && q.Present? && q.messages != [] && Possible(q.messages[0], o)
    ensures QueueOk(k, q.(messages := QueueAfter(q.messages, o)), LedgerAfterSend(ledger, q.messages[0], o))
  {
    if Judge(q.messages[0], o) in {Done, Lost} {
      SendLeaves(k, q, ledger, o);
    } else {
      SendStays(k, q, ledger, o);
    }
  }

  lemma SendLeaves(k: nat, q: Queue, ledger: seq<Request>, o: Outcome)
    requires QueueOk(k, q, ledger) && q.Present? && q.messages != [] && Possible(q.messages[0], o)
    requires Judge(q.messages[0], o) in {Done, Lost}
    ensures QueueOk(k, q.(messages := QueueAfter(q.messages, o)), LedgerAfterSend(ledger, q.messages[0], o))
  {
    assert QueueAfter(q.messages, o) == q.messages[1..];
    QueueTail(k, q, ledger, LedgerAfterSend(ledger, q.messages[0], o), PhaseAfterSend(o));
  }

  lemma SendStays(k: nat, q: Queue, ledger: seq<Request>, o: Outcome)
    requires QueueOk(k, q, ledger) && q.Present? && q.messages != [] && Possible(q.messages[0], o)
    requires Judge(q.messages[0], o) in {Kept, Stalled}
    ensures QueueOk(k, q.(messages := QueueAfter(q.messages, o)), LedgerAfterSend(ledger, q.messages[0], o))
  {
    var m := q.messages[0];
    assert LedgerAfterSend(ledger, m, o) == ledger;
    if o.Wrote? {
      QueueFrontSent(k, q, ledger, m.sent + o.n);
    } else {
      assert q.(messages := QueueAfter(q.messages, o)) == q;
    }
  }

  lemma Popping(k: nat, q: Queue, ledger: seq<Request>, popping: bool)
    requires QueueOk(k, q, ledger) && q.Present?
    ensures QueueOk(k, q.(popping := popping), ledger)
  {
  }

  lemma PopKeeps(s: State, k: nat)
    requires Inv(s) && k < |s.queues| && s.queues[k].Present?
    ensures Inv(DoPop(s, k))
  {
    assert QueueOk(k, s.queues[k], s.ledger);
    Popping(k, s.queues[k], s.ledger, false);
    Untouched(s.ledger, -1, k);
    HomesKept(s, DoPop(s, k), -1);
    Assemble(s, DoPop(s, k), -1, k);
  }

  lemma SendKeeps(s: State, k: nat, o: Outcome)
    requires Inv(s) && k < |s.queues| && s.queues[k].Present? && s.queues[k].messages != []
    requires Possible(s.queues[k].messages[0], o)
    ensures Inv(DoSend(s, k, o))
  {
    var s', m := DoSend(s, k, o), s.queues[k].messages[0];
    assert QueueOk(k, s.queues[k], s.ledger);
    assert QueuedOk(m, k, s.queues[k].home, s.ledger);
    SendQueueOk(k, s.queues[k], s.ledger, o);
    Popping(k, s.queues[k].(messages := s'.queues[k].messages), s'.ledger, s'.queues[k].popping);
    if s'.ledger != s.ledger {
      PhaseKept(s.slots, s.ledger, m.note.request, PhaseAfterSend(o));
      PhaseTouches(s.ledger, m.note.request, PhaseAfterSend(o), -1, k);
    } else {
      Untouched(s.ledger, -1, k);
    }
    HomesKept(s, s', -1);
    Assemble(s, s', -1, k);
  }

  // ------------------------------------------------------------------- a queue is removed

  lemma BulkKept(slots: seq<Slot>, ledger: seq<Request>, ledger': seq<Request>)
    requires Owners(slots, ledger) && Records(slots, ledger) && |ledger'| == |ledger|
    requires forall r :: 0 <= r < |ledger| ==>
               || ledger'[r] == ledger[r]
               || (Live(ledger[r]) && Live(ledger'[r]) && ledger'[r] == ledger[r].(phase := ledger'[r].phase))
    ensures Owners(slots, ledger') && Records(slots, ledger')
  {
    assert forall r :: 0 <= r < |ledger| ==> ledger'[r].slot == ledger[r].slot && Live(ledger'[r]) == Live(ledger[r]);
  }

  lemma StartCleanKeeps(s: State, t: nat, k: nat)
    requires Inv(s) && CanDo(s, StartClean(t, k))
    ensures Inv(DoStartClean(s, t, k))
  {
    var s' := DoStartClean(s, t, k);
    assert ThreadOk(t, s.threads[t], s.ledger, |s.slots|);
    assert QueueOk(k, s.queues[k], s.ledger);
    BulkKept(s.slots, s.ledger, s'.ledger);
    SweepingOk(s, t, k);
    CleanHomes(s, t, k);
    Assemble(s, s', t, k);
  }

  lemma SweepingOk(s: State, t: nat, k: nat)
    requires Inv(s) && IsIdle(s, t) && k < |s.queues| && s.queues[k].Present?
    ensures var s' := DoStartClean(s, t, k);
            && ThreadOk(t, s'.threads[t], s'.ledger, |s'.slots|)
            && QueueOk(k, s'.queues[k], s'.ledger)
            && Touches(s.ledger, s'.ledger, t, k)
  {
    var s', ms := DoStartClean(s, t, k), s.queues[k].messages;
    assert ThreadOk(t, s.threads[t], s.ledger, |s.slots|);
    assert QueueOk(k, s.queues[k], s.ledger);
    forall i | 0 <= i < |ms| ensures SweptOk(ms[i], t, s'.ledger) {
      assert QueuedOk(ms[i], k, s.queues[k].home, s.ledger);
    }
    forall r | 0 <= r < |s'.ledger| && BelongsTo(s'.ledger[r].phase, t) ensures Carried(ms, r) {
      assert s.ledger[r].phase == Queued(k);
    }
  }

  lemma CleanHomes(s: State, t: nat, k: nat)
    requires Inv(s) && CanDo(s, StartClean(t, k))
    ensures Homes(DoStartClean(s, t, k))
  {
    var s' := DoStartClean(s, t, k);
    forall p: Peer | SocketOf(s', p).Some?
      ensures SocketOf(s', p).value < |s'.queues| && SocketOf(s', p).value != k && SocketOf(s', p) == SocketOf(s, p)
    {
      assert SocketOf(s, p) == SocketOf(s', p);
    }
    forall u | 0 <= u < |s'.threads| && (s'.threads[u].Sizing? || s'.threads[u].Pushing?)
      ensures && s'.threads[u].sock < |s'.queues| && s'.queues[s'.threads[u].sock].Present?
              && Destination(s'.threads[u].work.message) == Some(s'.queues[s'.threads[u].sock].home)
    {
      assert s.threads[u] == s'.threads[u] && !HoldsQueue(s.threads[u], k);
    }
  }

  lemma SweepKeeps(s: State, t: nat)
    requires Inv(s) && t < |s.threads| && s.threads[t].Sweeping? && s.threads[t].messages != []
    ensures Inv(DoSweep(s, t))
  {
    var s', ms := DoSweep(s, t), s.threads[t].messages;
    var m := ms[0];
    assert ThreadOk(t, s.threads[t], s.ledger, |s.slots|);
    assert SweptOk(m, t, s.ledger);
    if IsRequest(m.kind) {
      PhaseClosed(s.slots, s.ledger, m.note.request);
      PhaseTouches(s.ledger, m.note.request, Closed, t, -1);
    } else {
      Untouched(s.ledger, t, -1);
    }
    SweptTail(s, t);
    HomesKept(s, s', t);
    Assemble(s, s', t, -1);
  }

  lemma SweptTail(s: State, t: nat)
    requires t < |s.threads| && s.threads[t].Sweeping? && s.threads[t].messages != []
    requires ThreadOk(t, s.threads[t], s.ledger, |s.slots|)
    ensures ThreadOk(t, DoSweep(s, t).threads[t], DoSweep(s, t).ledger, |s.slots|)
  {
    var s', ms := DoSweep(s, t), s.threads[t].messages;
    var tail := ms[1..];
    assert SweptOk(ms[0], t, s.ledger);
    forall i | 0 <= i < |tail| ensures SweptOk(tail[i], t, s'.ledger) {
      TailOk(ms, i);
      assert SweptOk(ms[i + 1], t, s.ledger);
    }
    forall r | 0 <= r < |s'.ledger| && BelongsTo(s'.ledger[r].phase, t) ensures Carried(tail, r) {
      assert BelongsTo(s.ledger[r].phase, t) && Holds(s.threads[t], r);
      CarriedTail(ms, r);
    }
    if tail != [] {
      TailOk(ms, 0);
    }
  }

  // ------------------------------------------------------------------------ peers

  lemma AbandonKeeps(s: State, r: nat)
    requires Inv(s) && r < |s.ledger| && s.ledger[r].phase == InFlight
    ensures Inv(s.(ledger := SetPhase(s.ledger, r, Orphaned)))
  {
    var s' := s.(ledger := SetPhase(s.ledger, r, Orphaned));
    PhaseKept(s.slots, s.ledger, r, Orphaned);
    PhaseTouches(s.ledger, r, Orphaned, -1, -1);
    HomesKept(s, s', -1);
    Assemble(s, s', -1, -1);
  }

  lemma UpKeeps(s: State, p: Peer, sock: nat)
    requires Inv(s) && CanDo(s, Up(p, sock))
    ensures Inv(SetEndpoint(s, p, Endpoint(true, sock)))
  {
    var s' := SetEndpoint(s, p, Endpoint(true, sock));
    assert SocketOf(s', p) == Some(sock);
    assert forall q: Peer :: q != p ==> SocketOf(s', q) == SocketOf(s, q);
    assert forall q: Peer :: SocketOf(s, q) != Some(sock);
  }

  lemma DownKeeps(s: State, p: Peer)
    requires Inv(s)
    ensures Inv(DoDown(s, p))
  {
    HomesKept(s, DoDown(s, p), -1);
  }

  lemma AttachKeeps(s: State, p: Peer)
    requires Inv(s) && SocketOf(s, p).Some? && SocketOf(s, p).value < |s.queues|
    requires s.queues[SocketOf(s, p).value] == Absent
    ensures Inv(s.(queues := s.queues[SocketOf(s, p).value := Present([], p, false)]))
  {
    var k := SocketOf(s, p).value;
    var s' := s.(queues := s.queues[k := Present([], p, false)]);
    assert QueueOk(k, s.queues[k], s.ledger);
    assert forall q: Peer :: SocketOf(s', q) == SocketOf(s, q);
    Untouched(s.ledger, -1, k);
    assert Homes(s');
    Assemble(s, s', -1, k);
  }

  // --------------------------------------------------------------------------- all

  predicate IsHandling(step: Step)
  {
    step.Offer? || step.Size? || step.Push? || step.CountDiscard? || step.ReleaseSlot? || step.Probe? || step.Fill?
  }

  lemma HandlingKeeps(s: State, step: Step)
    requires Inv(s) && CanDo(s, step) && IsHandling(step)
    ensures Inv(Do(s, step))
  {
    match step
    case Probe(t) => ProbeKeeps(s, t);
    case Fill(t) => FillKeeps(s, t);
    case Offer(t) => OfferKeeps(s, t);
    case Size(t) => SizeKeeps(s, t);
    case Push(t) => PushKeeps(s, t);
    case CountDiscard(t) => CountDiscardKeeps(s, t);
    case ReleaseSlot(t) => ReleaseSlotKeeps(s, t);
  }

  predicate IsService(step: Step)
  {
    || step.Send? || step.Pop? || step.StartClean? || step.Sweep?
    || step.Abandon? || step.Up? || step.Down? || step.Attach?
  }

  lemma ServiceKeeps(s: State, step: Step)
    requires Inv(s) && CanDo(s, step) && IsService(step)
    ensures Inv(Do(s, step))
  {
    match step
    case Send(k, o) => SendKeeps(s, k, o);
    case Pop(k) => PopKeeps(s, k);
    case StartClean(t, k) => StartCleanKeeps(s, t, k);
    case Sweep(t) => SweepKeeps(s, t);
    case Abandon(r) => AbandonKeeps(s, r);
    case Up(p, sock) => UpKeeps(s, p, sock);
    case Down(p) => DownKeeps(s, p);
    case Attach(p) => AttachKeeps(s, p);
  }

  /** Every step keeps the invariant. */
  lemma StepKeeps(s: State, step: Step)
    requires Inv(s) && CanDo(s, step)
    ensures Inv(Do(s, step))
  {
    if IsHandling(step) {
      HandlingKeeps(s, step);
    } else if IsService(step) {
      ServiceKeeps(s, step);
    } else {
      match step
      case ClientRequest(t, c, k, bytes) => ClientRequestKeeps(s, t, c, k, bytes);
      case ServerRequest(t, k, bytes, pick) => ServerRequestKeeps(s, t, k, bytes, pick);
      case ServerAnswer(t, k, r, bytes) => ServerAnswerKeeps(s, t, k, r, bytes);
      case ClientAnswer(t, r, bytes) => ClientAnswerKeeps(s, t, r, bytes);
      case CerLookup(t, c, bytes) => CerLookupKeeps(s, t, c, bytes);
      case CerCommit(t) => CerCommitKeeps(s, t);
    }
  }

  lemma InitHolds(s: State)
    requires Init(s)
    ensures Inv(s)
  {
    assert forall p: Peer :: SocketOf(s, p) == None;
  }

  /** The invariant holds in every state of every run. */
  lemma {:induction false} RunKeeps(states: seq<State>, steps: seq<Step>, i: nat)
    requires IsRun(states, steps) && i < |states|
    ensures Inv(states[i])
  {
    if i == 0 {
      InitHolds(states[0]);
    } else {
      RunKeeps(states, steps, i - 1);
      StepKeeps(states[i - 1], steps[i - 1]);
    }
  }
}
