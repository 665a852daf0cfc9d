/** The counters of the proxy, and the length of its queues, over every run. */
module ProxyCounting {
  import opened Octets
  import opened Codec
  import opened Pending
  import opened Proxy

  // ------------------------------------------------------------------- sums

  function QueueCount(q: Queue, cell: Cell): (n: nat)
  {
    if q.Present? then InCell(q.messages, cell) else 0
  }

  function InQueues(qs: seq<Queue>, cell: Cell): (n: nat)
  {
    if qs == [] then 0 else QueueCount(qs[0], cell) + InQueues(qs[1..], cell)
  }

  function One(b: bool): (n: nat)
  {
    if b then 1 else 0
  }

  /** Messages of a cell that a thread has received, or taken from a queue, and neither
      queued nor counted as discarded yet. */
  function PcCount(pc: Pc, cell: Cell): (n: nat)
  {
    match pc
    case Searching(task, _) => One(Cell(task.connection, task.kind) == cell)
    case Filling(task, _, _) => One(Cell(task.connection, task.kind) == cell)
    case Offering(w) => One(CellOf(w.message) == cell)
    case Sizing(w, _) => One(CellOf(w.message) == cell)
    case Pushing(w, _) => One(CellOf(w.message) == cell)
    case Closing(c, uncounted, _) => One(uncounted && c == cell)
    case Sweeping(ms) => InCell(ms, cell)
    case _ => 0
  }

  function InThreads(ts: seq<Pc>, cell: Cell): (n: nat)
  {
    if ts == [] then 0 else PcCount(ts[0], cell) + InThreads(ts[1..], cell)
  }

  lemma {:induction false} QueuesUpdate(qs: seq<Queue>, k: nat, q: Queue, cell: Cell)
    requires k < |qs|
    ensures InQueues(qs[k := q], cell) + QueueCount(qs[k], cell) == InQueues(qs, cell) + QueueCount(q, cell)
  {
    if k == 0 {
      assert qs[0 := q][1..] == qs[1..];
    } else {
      assert qs[k := q][1..] == qs[1..][k - 1 := q];
      QueuesUpdate(qs[1..], k - 1, q, cell);
    }
  }

  lemma {:induction false} ThreadsUpdate(ts: seq<Pc>, t: nat, pc: Pc, cell: Cell)
    requires t < |ts|
    ensures InThreads(ts[t := pc], cell) + PcCount(ts[t], cell) == InThreads(ts, cell) + PcCount(pc, cell)
  {
    if t == 0 {
      assert ts[0 := pc][1..] == ts[1..];
    } else {
      assert ts[t := pc][1..] == ts[1..][t - 1 := pc];
      ThreadsUpdate(ts[1..], t - 1, pc, cell);
    }
  }

  lemma {:induction false} ListAppend(ms: seq<Message>, m: Message, cell: Cell)
    ensures InCell(ms + [m], cell) == InCell(ms, cell) + One(CellOf(m) == cell)
  {
    if ms == [] {
      assert [] + [m] == [m] && [m][1..] == [];
    } else {
      assert (ms + [m])[1..] == ms[1..] + [m];
      ListAppend(ms[1..], m, cell);
    }
  }

  lemma FrontSent(ms: seq<Message>, n: nat, cell: Cell)
    requires ms != []
    ensures InCell([ms[0].(sent := n)] + ms[1..], cell) == InCell(ms, cell)
  {
    assert ([ms[0].(sent := n)] + ms[1..])[1..] == ms[1..];
  }

  // --------------------------------------------------------------------- law

  /** The exact law of one cell: what was received, and `extra` discards more, is what was
      sent, discarded, is queued and not yet counted, or is still in a thread's hands. */
  ghost predicate Balanced(s: State, cell: Cell, extra: nat)
  {
    var t := At(s.counters, cell);
    t.received + extra == t.sent + t.discarded + InQueues(s.queues, cell) + InThreads(s.threads, cell)
  }

  /** How one step moves the two sides. */
  lemma Move(s: State, s': State, cell: Cell, extra: nat, more: nat, t: int, k: int)
    requires Balanced(s, cell, extra) && |s'.threads| == |s.threads| && |s'.queues| == |s.queues|
    requires if 0 <= t < |s.threads| then s'.threads == s.threads[t := s'.threads[t]] else s'.threads == s.threads
    requires if 0 <= k < |s.queues| then s'.queues == s.queues[k := s'.queues[k]] else s'.queues == s.queues
    requires var a, b := At(s.counters, cell), At(s'.counters, cell);
             var db := (b.sent + b.discarded) - (a.sent + a.discarded);
             var dt := if 0 <= t < |s.threads| then PcCount(s'.threads[t], cell) - PcCount(s.threads[t], cell) else 0;
             var dq := if 0 <= k < |s.queues|
                       then QueueCount(s'.queues[k], cell) - QueueCount(s.queues[k], cell) else 0;
             b.received - a.received + more == db + dt + dq
    ensures Balanced(s', cell, extra + more)
  {
    if 0 <= t < |s.threads| {
      ThreadsUpdate(s.threads, t, s'.threads[t], cell);
    }
    if 0 <= k < |s.queues| {
      QueuesUpdate(s.queues, k, s'.queues[k], cell);
    }
  }

  /** The thread finds the queue too long, and the message it rejects is of this cell. */
  predicate Rejects(s: State, step: Step, cell: Cell)
  {
    && step.Size? && step.t < |s.threads| && s.threads[step.t].Sizing? && s.threads[step.t].sock < |s.queues|
    && Length(s.queues[s.threads[step.t].sock]) > s.config.maxQueue && CellOf(s.threads[step.t].work.message) == cell
  }

  /** The attempt to send the message in front, which is of this cell, would have blocked. */
  predicate Blocks(s: State, step: Step, cell: Cell)
  {
    step.Send? && step.outcome.WouldBlock? && InQueueAt(s, step.sock, 0)
    && CellOf(s.queues[step.sock].messages[0]) == cell
  }

  /** The program counts these once more than it should. */
  function Extra(s: State, step: Step, cell: Cell): (n: nat)
  {
    One(Rejects(s, step, cell)) + One(Blocks(s, step, cell))
  }

  /** What an attempt to send does to the counters and to the queue comes to the same. */
  lemma SendBalances(q: seq<Message>, c: Counters, o: Outcome, cell: Cell)
    requires q != [] && Possible(q[0], o)
    ensures var a, b := At(c, cell), At(CountersAfter(c, q[0], o), cell);
            && b.received == a.received
            && One(o.WouldBlock? && CellOf(q[0]) == cell)
               == (b.sent + b.discarded) - (a.sent + a.discarded)
                  + InCell(QueueAfter(q, o), cell) - InCell(q, cell)
  {
    if Judge(q[0], o) == Kept && o.Wrote? {
      FrontSent(q, q[0].sent + o.n, cell);
    }
  }

  lemma ClientRequestBalances(s: State, t: nat, c: nat, k: nat, bytes: seq<Byte>, cell: Cell, extra: nat)
    requires CanDo(s, ClientRequest(t, c, k, bytes)) && Balanced(s, cell, extra)
    ensures Balanced(Do(s, ClientRequest(t, c, k, bytes)), cell, extra)
  {
    Move(s, Do(s, ClientRequest(t, c, k, bytes)), cell, extra, 0, t, -1);
  }

  lemma ServerRequestBalances(s: State, t: nat, k: nat, bytes: seq<Byte>, pick: int, cell: Cell, extra: nat)
    requires IsIdle(s, t) && WellFormed(bytes, HEADER_LENGTH) && Balanced(s, cell, extra)
    ensures Balanced(DoServerRequest(s, t, k, bytes, pick), cell, extra)
  {
    Move(s, DoServerRequest(s, t, k, bytes, pick), cell, extra, 0, t, -1);
  }

  lemma ServerAnswerBalances(s: State, t: nat, k: nat, r: nat, bytes: seq<Byte>, cell: Cell, extra: nat)
    requires IsIdle(s, t) && |bytes| >= HEADER_LENGTH && |s.slots| >= 1 && Balanced(s, cell, extra)
    ensures Balanced(DoServerAnswer(s, t, k, r, bytes), cell, extra)
  {
    Move(s, DoServerAnswer(s, t, k, r, bytes), cell, extra, 0, t, -1);
  }

  lemma ClientAnswerBalances(s: State, t: nat, r: nat, bytes: seq<Byte>, cell: Cell, extra: nat)
    requires IsIdle(s, t) && |bytes| >= HEADER_LENGTH && |s.slots| >= 1 && Balanced(s, cell, extra)
    ensures Balanced(DoClientAnswer(s, t, r, bytes), cell, extra)
  {
    Move(s, DoClientAnswer(s, t, r, bytes), cell, extra, 0, t, -1);
  }

  lemma ProbeBalances(s: State, t: nat, cell: Cell, extra: nat)
    requires t < |s.threads| && s.threads[t].Searching? && s.cursor < |s.slots| && Balanced(s, cell, extra)
    ensures Balanced(DoProbe(s, t), cell, extra)
  {
    Move(s, DoProbe(s, t), cell, extra, 0, t, -1);
  }

  lemma FillBalances(s: State, t: nat, cell: Cell, extra: nat)
    requires CanDo(s, Fill(t)) && Balanced(s, cell, extra)
    ensures Balanced(DoFill(s, t), cell, extra)
  {
    Move(s, DoFill(s, t), cell, extra, 0, t, -1);
  }

  lemma OfferBalances(s: State, t: nat, cell: Cell, extra: nat)
    requires t < |s.threads| && s.threads[t].Offering? && Balanced(s, cell, extra)
    ensures Balanced(DoOffer(s, t), cell, extra)
  {
    Move(s, DoOffer(s, t), cell, extra, 0, t, -1);
  }

  lemma SizeBalances(s: State, t: nat, cell: Cell, extra: nat)
    requires CanDo(s, Size(t)) && Balanced(s, cell, extra)
    ensures Balanced(DoSize(s, t), cell, extra + Extra(s, Size(t), cell))
  {
    Move(s, DoSize(s, t), cell, extra, Extra(s, Size(t), cell), t, -1);
  }

  lemma PushBalances(s: State, t: nat, cell: Cell, extra: nat)
    requires CanDo(s, Push(t)) && Balanced(s, cell, extra)
    ensures Balanced(DoPush(s, t), cell, extra)
  {
    var k := s.threads[t].sock;
    ListAppend(s.queues[k].messages, s.threads[t].work.message, cell);
    Move(s, DoPush(s, t), cell, extra, 0, t, k);
  }

  lemma CountDiscardBalances(s: State, t: nat, cell: Cell, extra: nat)
    requires t < |s.threads| && s.threads[t].Closing? && s.threads[t].uncounted && Balanced(s, cell, extra)
    ensures Balanced(DoCountDiscard(s, t), cell, extra)
  {
    Move(s, DoCountDiscard(s, t), cell, extra, 0, t, -1);
  }

  lemma ReleaseSlotBalances(s: State, t: nat, cell: Cell, extra: nat)
    requires t < |s.threads| && s.threads[t].Closing? && s.threads[t].held.Some? && Balanced(s, cell, extra)
    ensures Balanced(DoReleaseSlot(s, t), cell, extra)
  {
    Move(s, DoReleaseSlot(s, t), cell, extra, 0, t, -1);
  }

  lemma SendStepBalances(s: State, k: nat, o: Outcome, cell: Cell, extra: nat)
    requires CanDo(s, Send(k, o)) && Balanced(s, cell, extra)
    ensures Balanced(DoSend(s, k, o), cell, extra + Extra(s, Send(k, o), cell))
  {
    SendBalances(s.queues[k].messages, s.counters, o, cell);
    Move(s, DoSend(s, k, o), cell, extra, Extra(s, Send(k, o), cell), -1, k);
  }

  lemma StartCleanBalances(s: State, t: nat, k: nat, cell: Cell, extra: nat)
    requires IsIdle(s, t) && k < |s.queues| && s.queues[k].Present? && Balanced(s, cell, extra)
    ensures Balanced(DoStartClean(s, t, k), cell, extra)
  {
    Move(s, DoStartClean(s, t, k), cell, extra, 0, t, k);
  }

  lemma SweepBalances(s: State, t: nat, cell: Cell, extra: nat)
    requires t < |s.threads| && s.threads[t].Sweeping? && s.threads[t].messages != [] && Balanced(s, cell, extra)
    ensures Balanced(DoSweep(s, t), cell, extra)
  {
    var ms := s.threads[t].messages;
    var s', tail := DoSweep(s, t), ms[1..];
    assert |ms| == 1 ==> tail == [];
    assert PcCount(s'.threads[t], cell) == InCell(tail, cell);
    assert PcCount(s.threads[t], cell) == One(CellOf(ms[0]) == cell) + InCell(tail, cell);
    assert s'.counters == Discarded(s.counters, CellOf(ms[0])) && s'.queues == s.queues;
    Move(s, s', cell, extra, 0, t, -1);
  }

  lemma CerBalances(s: State, step: Step, cell: Cell, extra: nat)
    requires CanDo(s, step) && Balanced(s, cell, extra) && (step.CerLookup? || step.CerCommit?)
    ensures Balanced(Do(s, step), cell, extra)
  {
    Move(s, Do(s, step), cell, extra, 0, step.t, -1);
  }

  lemma PeersBalance(s: State, step: Step, cell: Cell, extra: nat)
    requires CanDo(s, step) && Balanced(s, cell, extra)
    requires step.Pop? || step.Abandon? || step.Up? || step.Down? || step.Attach?
    ensures Balanced(Do(s, step), cell, extra)
  {
    Move(s, Do(s, step), cell, extra, 0, -1,
         if step.Attach? then SocketOf(s, step.peer).value else if step.Pop? then step.sock else -1);
  }

  lemma TakingBalances(s: State, step: Step, cell: Cell, extra: nat)
    requires CanDo(s, step) && Balanced(s, cell, extra) && (step.Probe? || step.Fill?)
    ensures Balanced(Do(s, step), cell, extra + Extra(s, step, cell))
  {
    match step
    case Probe(t) => ProbeBalances(s, t, cell, extra);
    case Fill(t) => FillBalances(s, t, cell, extra);
  }

  lemma HandlingBalances(s: State, step: Step, cell: Cell, extra: nat)
    requires CanDo(s, step) && Balanced(s, cell, extra)
    requires step.Offer? || step.Size? || step.Push? || step.CountDiscard? || step.ReleaseSlot?
    ensures Balanced(Do(s, step), cell, extra + Extra(s, step, cell))
  {
    match step
    case Offer(t) => OfferBalances(s, t, cell, extra);
    case Size(t) => SizeBalances(s, t, cell, extra);
    case Push(t) => PushBalances(s, t, cell, extra);
    case CountDiscard(t) => CountDiscardBalances(s, t, cell, extra);
    case ReleaseSlot(t) => ReleaseSlotBalances(s, t, cell, extra);
  }

  lemma ReceivingBalances(s: State, step: Step, cell: Cell, extra: nat)
    requires CanDo(s, step) && Balanced(s, cell, extra)
    requires step.ClientRequest? || step.ServerRequest? || step.ServerAnswer? || step.ClientAnswer?
    ensures Balanced(Do(s, step), cell, extra)
  {
    match step
    case ClientRequest(t, c, k, bytes) => ClientRequestBalances(s, t, c, k, bytes, cell, extra);
    case ServerRequest(t, k, bytes, pick) => ServerRequestBalances(s, t, k, bytes, pick, cell, extra);
    case ServerAnswer(t, k, r, bytes) => ServerAnswerBalances(s, t, k, r, bytes, cell, extra);
    case ClientAnswer(t, r, bytes) => ClientAnswerBalances(s, t, r, bytes, cell, extra);
  }

  lemma LeavingBalances(s: State, step: Step, cell: Cell, extra: nat)
    requires CanDo(s, step) && Balanced(s, cell, extra) && (step.Send? || step.StartClean? || step.Sweep?)
    ensures Balanced(Do(s, step), cell, extra + Extra(s, step, cell))
  {
    match step
    case Send(k, o) => SendStepBalances(s, k, o, cell, extra);
    case StartClean(t, k) => StartCleanBalances(s, t, k, cell, extra);
    case Sweep(t) => SweepBalances(s, t, cell, extra);
  }

  lemma StepBalances(s: State, step: Step, cell: Cell, extra: nat)
    requires CanDo(s, step) && Balanced(s, cell, extra)
    ensures Balanced(Do(s, step), cell, extra + Extra(s, step, cell))
  {
    if step.Send? || step.StartClean? || step.Sweep? {
      LeavingBalances(s, step, cell, extra);
    } else if step.Pop? || step.Abandon? || step.Up? || step.Down? || step.Attach? {
      PeersBalance(s, step, cell, extra);
    } else if step.ClientRequest? || step.ServerRequest? || step.ServerAnswer? || step.ClientAnswer? {
      ReceivingBalances(s, step, cell, extra);
    } else if step.CerLookup? || step.CerCommit? {
      CerBalances(s, step, cell, extra);
    } else if step.Probe? || step.Fill? {
      TakingBalances(s, step, cell, extra);
    } else {
      HandlingBalances(s, step, cell, extra);
    }
  }

  lemma {:induction false} NothingQueued(qs: seq<Queue>, cell: Cell)
    requires forall k :: 0 <= k < |qs| ==> qs[k] == Absent
    ensures InQueues(qs, cell) == 0
  {
    if qs != [] {
      NothingQueued(qs[1..], cell);
    }
  }

  lemma {:induction false} NothingInHand(ts: seq<Pc>, cell: Cell)
    requires forall t :: 0 <= t < |ts| ==> ts[t] == Idle
    ensures InThreads(ts, cell) == 0
  {
    if ts != [] {
      NothingInHand(ts[1..], cell);
    }
  }

  /** How many messages of a cell full queues rejected, and how many attempts to send one of
      them would have blocked, before the state number `i` of a run. */
  function Rejections(states: seq<State>, steps: seq<Step>, i: nat, cell: Cell): (n: nat)
    requires i <= |steps| < |states|
  {
    if i == 0 then 0
    else Rejections(states, steps, i - 1, cell) + One(Rejects(states[i - 1], steps[i - 1], cell))
  }

  function BlockedAttempts(states: seq<State>, steps: seq<Step>, i: nat, cell: Cell): (n: nat)
    requires i <= |steps| < |states|
  {
    if i == 0 then 0
    else BlockedAttempts(states, steps, i - 1, cell) + One(Blocks(states[i - 1], steps[i - 1], cell))
  }

  /** The counters are exact in every state of every run, for every connection and every
      kind of message: received, plus one for each rejection by a full queue and each blocked
      attempt, since the program counts these once more, is sent plus discarded plus what is
      queued and not yet counted plus what is in a thread's hands. */
  lemma {:induction false} CountersExact(states: seq<State>, steps: seq<Step>, i: nat, cell: Cell)
    requires IsRun(states, steps) && i < |states|
    ensures var c := At(states[i].counters, cell);
            c.received + Rejections(states, steps, i, cell) + BlockedAttempts(states, steps, i, cell)
            == c.sent + c.discarded + InQueues(states[i].queues, cell) + InThreads(states[i].threads, cell)
  {
    if i == 0 {
      NothingQueued(states[0].queues, cell);
      NothingInHand(states[0].threads, cell);
    } else {
      CountersExact(states, steps, i - 1, cell);
      var extra := Rejections(states, steps, i - 1, cell) + BlockedAttempts(states, steps, i - 1, cell);
      StepBalances(states[i - 1], steps[i - 1], cell, extra);
    }
  }

  /** When no thread is in the middle of something, the law is about messages alone. */
  lemma CountersAtRest(states: seq<State>, steps: seq<Step>, i: nat, cell: Cell)
    requires IsRun(states, steps) && i < |states|
    requires forall t :: 0 <= t < |states[i].threads| ==> states[i].threads[t] == Idle
    ensures var c := At(states[i].counters, cell);
            c.received + Rejections(states, steps, i, cell) + BlockedAttempts(states, steps, i, cell)
            == c.sent + c.discarded + InQueues(states[i].queues, cell)
  {
    CountersExact(states, steps, i, cell);
    NothingInHand(states[i].threads, cell);
  }

  // ------------------------------------------------------------------- bound

  predicate PushesTo(pc: Pc, k: nat)
  {
    pc.Pushing? && pc.sock == k
  }

  function Pushers(ts: seq<Pc>, k: nat): (n: nat)
    ensures n <= |ts|
  {
    if ts == [] then 0 else One(PushesTo(ts[0], k)) + Pushers(ts[1..], k)
  }

  lemma {:induction false} PushersUpdate(ts: seq<Pc>, t: nat, pc: Pc, k: nat)
    requires t < |ts|
    ensures Pushers(ts[t := pc], k) + One(PushesTo(ts[t], k)) == Pushers(ts, k) + One(PushesTo(pc, k))
  {
    if t == 0 {
      assert ts[0 := pc][1..] == ts[1..];
    } else {
      assert ts[t := pc][1..] == ts[1..][t - 1 := pc];
      PushersUpdate(ts[1..], t - 1, pc, k);
    }
  }

  /** Threads that have found the queue short enough count as if they had pushed. */
  ghost predicate Bounded(s: State, k: nat)
  {
    k < |s.queues| && s.queues[k].Present? ==>
      Length(s.queues[k]) + Pushers(s.threads, k) <= s.config.maxQueue + |s.threads|
  }

  lemma OneThread(s: State, s': State, t: nat, k: nat)
    requires t < |s.threads| == |s'.threads| && s'.threads == s.threads[t := s'.threads[t]]
    ensures Pushers(s'.threads, k) + One(PushesTo(s.threads[t], k))
            == Pushers(s.threads, k) + One(PushesTo(s'.threads[t], k))
  {
    PushersUpdate(s.threads, t, s'.threads[t], k);
  }

  predicate Receives(step: Step)
  {
    || step.ClientRequest? || step.ServerRequest? || step.ServerAnswer? || step.ClientAnswer?
    || step.CerLookup? || step.CerCommit?
  }

  predicate Handles(step: Step)
  {
    step.Probe? || step.Fill? || step.Offer? || step.CountDiscard? || step.ReleaseSlot? || step.Sweep?
  }

  lemma ReceivingBounded(s: State, step: Step, k: nat)
    requires CanDo(s, step) && Bounded(s, k) && Receives(step)
    ensures Bounded(Do(s, step), k)
  {
    if step.ServerAnswer? || step.ClientAnswer? {
      AnswerBounded(s, step, k);
    } else {
      OneThread(s, Do(s, step), step.t, k);
    }
  }

  lemma AnswerBounded(s: State, step: Step, k: nat)
    requires CanDo(s, step) && Bounded(s, k) && (step.ServerAnswer? || step.ClientAnswer?)
    ensures Bounded(Do(s, step), k)
  {
    OneThread(s, Do(s, step), step.t, k);
  }

  lemma HandlingBounded(s: State, step: Step, k: nat)
    requires CanDo(s, step) && Bounded(s, k) && Handles(step)
    ensures Bounded(Do(s, step), k)
  {
    if step.Probe? {
      ProbeBounded(s, step.t, k);
    } else if step.Fill? {
      FillBounded(s, step.t, k);
    } else if step.Sweep? {
      SweepBounded(s, step.t, k);
    } else {
      ClosingBounded(s, step, k);
    }
  }

  lemma SweepBounded(s: State, t: nat, k: nat)
    requires t < |s.threads| && s.threads[t].Sweeping? && s.threads[t].messages != [] && Bounded(s, k)
    ensures Bounded(DoSweep(s, t), k)
  {
    OneThread(s, DoSweep(s, t), t, k);
  }

  lemma ClosingBounded(s: State, step: Step, k: nat)
    requires CanDo(s, step) && (step.Offer? || step.CountDiscard? || step.ReleaseSlot?) && Bounded(s, k)
    ensures Bounded(Do(s, step), k)
  {
    OneThread(s, Do(s, step), step.t, k);
  }

  lemma ProbeBounded(s: State, t: nat, k: nat)
    requires t < |s.threads| && s.threads[t].Searching? && s.cursor < |s.slots| && Bounded(s, k)
    ensures Bounded(DoProbe(s, t), k)
  {
    OneThread(s, DoProbe(s, t), t, k);
  }

  lemma FillBounded(s: State, t: nat, k: nat)
    requires CanDo(s, Fill(t)) && Bounded(s, k)
    ensures Bounded(DoFill(s, t), k)
  {
    OneThread(s, DoFill(s, t), t, k);
  }

  lemma SizeBounded(s: State, t: nat, k: nat)
    requires CanDo(s, Size(t)) && Bounded(s, k)
    ensures Bounded(Do(s, Size(t)), k)
  {
    var s' := Do(s, Size(t));
    OneThread(s, s', t, k);
    assert s'.queues == s.queues;
    PushersBelow(s, t, k);
  }

  lemma PushBounded(s: State, t: nat, k: nat)
    requires CanDo(s, Push(t)) && Bounded(s, k)
    ensures Bounded(Do(s, Push(t)), k)
  {
    var s' := Do(s, Push(t));
    OneThread(s, s', t, k);
    OneThread(s', s, t, k);
  }

  lemma CleanBounded(s: State, t: nat, q: nat, k: nat)
    requires CanDo(s, StartClean(t, q)) && Bounded(s, k)
    ensures Bounded(Do(s, StartClean(t, q)), k)
  {
    OneThread(s, Do(s, StartClean(t, q)), t, k);
  }

  lemma PushersBelow(s: State, t: nat, k: nat)
    requires t < |s.threads| && !PushesTo(s.threads[t], k)
    ensures Pushers(s.threads, k) < |s.threads|
  {
    var m := Message(RequestToServer, 0, 0, [], 0, Note(0, 0, []));
    PushersUpdate(s.threads, t, Pushing(Work(m, 0), k), k);
  }

  lemma StepBounded(s: State, step: Step, k: nat)
    requires CanDo(s, step) && Bounded(s, k)
    ensures Bounded(Do(s, step), k)
  {
    if step.Size? {
      SizeBounded(s, step.t, k);
    } else if step.Push? {
      PushBounded(s, step.t, k);
    } else if step.StartClean? {
      CleanBounded(s, step.t, step.sock, k);
    } else if Receives(step) {
      ReceivingBounded(s, step, k);
    } else if Handles(step) {
      HandlingBounded(s, step, k);
    } else {
      OtherStepBounded(s, step, k);
    }
  }

  lemma OtherStepBounded(s: State, step: Step, k: nat)
    requires CanDo(s, step) && Bounded(s, k)
    requires step.Send? || step.Pop? || step.Abandon? || step.Up? || step.Down? || step.Attach?
    ensures Bounded(Do(s, step), k)
  {
    assert Do(s, step).threads == s.threads && Do(s, step).config == s.config;
  }

  /** The length of a queue is looked at, and a message pushed, under two different locks;
      still no queue ever holds more messages than the maximum plus one for each thread. */
  lemma {:induction false} QueueBound(states: seq<State>, steps: seq<Step>, i: nat, k: nat)
    requires IsRun(states, steps) && i < |states|
    ensures Bounded(states[i], k)
    ensures k < |states[i].queues| && states[i].queues[k].Present? ==>
              Length(states[i].queues[k]) <= states[i].config.maxQueue + |states[i].threads|
  {
    if i > 0 {
      QueueBound(states, steps, i - 1, k);
      StepBounded(states[i - 1], steps[i - 1], k);
    }
  }
}
