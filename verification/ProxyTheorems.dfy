/** What the invariant means for every run of the proxy. */
module ProxyTheorems {
  import opened Octets
  import opened Codec
  import opened Pending
  import opened Proxy
  import opened ProxyInvariant
  import opened ProxySteps
  import opened ProxyOctets
  import TransactionTable

  /** The step received an answer to this request, which was waiting for it, and the message
      is that answer with the identifiers of the request. */
  predicate IsAnswerWith(m: Message, s: State, step: Step, r: Request)
  {
    && (step.ServerAnswer? || step.ClientAnswer?) && step.request == m.note.request
    && FairAnswer(s, step.request, r.kind, step.bytes) && |r.bytes| >= HEADER_LENGTH
    && m.bytes == WithIds(step.bytes, HopByHop(r.bytes), EndToEnd(r.bytes))
  }

  /** Routing of answers. Whenever an answer to a client is in a queue, that queue leads
      to the client slot from which the answered request came; a server sent that answer in an
      earlier step; and the message is, octet by octet, what it sent, except that the two
      identifiers are those the client had put into its request. The request answered is the
      one the server chose, not one looked up in the proxy. */
  lemma AnswersReachTheirClient(states: seq<State>, steps: seq<Step>, i: nat, k: nat, j: nat)
    requires IsRun(states, steps) && i < |states| && InQueueAt(states[i], k, j)
    requires states[i].queues[k].messages[j].kind == AnswerToClient
    ensures var s, m := states[i], states[i].queues[k].messages[j];
            && m.note.request < |s.ledger|
            && var r := s.ledger[m.note.request];
               && r.kind == RequestToServer && s.queues[k].home == AtClient(r.client)
               && exists l :: 0 <= l < i && steps[l].ServerAnswer? && IsAnswerWith(m, states[l], steps[l], r)
  {
    RunKeeps(states, steps, i);
    QueuedAnswer(states[i], k, j);
    AnswerCameIn(states, steps, i, k, j);
    var m := states[i].queues[k].messages[j];
    var l :| 0 <= l < i && Brings(states[l], steps[l], m);
    assert IsAnswerWith(m, states[l], steps[l], states[i].ledger[m.note.request]);
  }

  /** The same for requests of a server, answered by a client: the answer is on its way to
      the connection the request came from. */
  lemma AnswersReachTheirServer(states: seq<State>, steps: seq<Step>, i: nat, k: nat, j: nat)
    requires IsRun(states, steps) && i < |states| && InQueueAt(states[i], k, j)
    requires states[i].queues[k].messages[j].kind == AnswerToServer
    ensures var s, m := states[i], states[i].queues[k].messages[j];
            && m.note.request < |s.ledger|
            && var r := s.ledger[m.note.request];
               && r.kind == RequestToClient && s.queues[k].home == AtServer(r.connection)
               && exists l :: 0 <= l < i && steps[l].ClientAnswer? && IsAnswerWith(m, states[l], steps[l], r)
  {
    RunKeeps(states, steps, i);
    QueuedAnswer(states[i], k, j);
    AnswerCameIn(states, steps, i, k, j);
    var m := states[i].queues[k].messages[j];
    var l :| 0 <= l < i && Brings(states[l], steps[l], m);
    assert IsAnswerWith(m, states[l], steps[l], states[i].ledger[m.note.request]);
  }

  /** What such a message is: the identifiers of the request, and otherwise the octets of the
      answer. */
  lemma AnswerOctets(m: Message, s: State, step: Step, r: Request)
    requires IsAnswerWith(m, s, step, r)
    ensures |m.bytes| == |step.bytes| >= HEADER_LENGTH
    ensures HopByHop(m.bytes) == HopByHop(r.bytes) && EndToEnd(m.bytes) == EndToEnd(r.bytes)
    ensures forall x :: 0 <= x < |m.bytes| && !(12 <= x < 20) ==> m.bytes[x] == step.bytes[x]
  {
    IdsReplaced(step.bytes, HopByHop(r.bytes), EndToEnd(r.bytes));
  }

  lemma QueuedAnswer(s: State, k: nat, j: nat)
    requires Inv(s) && InQueueAt(s, k, j) && !IsRequest(s.queues[k].messages[j].kind)
    ensures var m := s.queues[k].messages[j];
            && Destination(m) == Some(s.queues[k].home) && m.note.request < |s.ledger|
            && AnswerMessage(m, s.ledger[m.note.request])
  {
    assert QueueOk(k, s.queues[k], s.ledger);
    assert QueuedOk(s.queues[k].messages[j], k, s.queues[k].home, s.ledger);
  }

  /** A queued request carries the number of its record plus one as hop-by-hop
      identifier, and goes where it was meant to go. */
  lemma QueuedRequest(s: State, k: nat, j: nat)
    requires Inv(s) && InQueueAt(s, k, j) && IsRequest(s.queues[k].messages[j].kind)
    ensures var m := s.queues[k].messages[j];
            && Destination(m) == Some(s.queues[k].home) && m.note.request < |s.ledger|
            && var r := s.ledger[m.note.request];
               && Live(r) && r.phase == Queued(k) && m.transaction == r.slot < |s.slots|
               && |m.bytes| >= HEADER_LENGTH && HopByHop(m.bytes) == r.slot + 1
  {
    var m := s.queues[k].messages[j];
    assert QueueOk(k, s.queues[k], s.ledger);
    assert QueuedOk(m, k, s.queues[k].home, s.ledger);
  }

  /** The hop-by-hop identifiers of requests the peers may still answer are pairwise
      distinct, and each is in the range that selects a record. */
  lemma LiveIdsDistinct(states: seq<State>, steps: seq<Step>, i: nat, a: nat, b: nat)
    requires IsRun(states, steps) && i < |states|
    requires a < b < |states[i].ledger| && Live(states[i].ledger[a]) && Live(states[i].ledger[b])
    requires states[i].ledger[a].wire != [] && states[i].ledger[b].wire != []
    ensures var la, lb := states[i].ledger[a], states[i].ledger[b];
            && |la.wire| >= HEADER_LENGTH && |lb.wire| >= HEADER_LENGTH
            && HopByHop(la.wire) != HopByHop(lb.wire)
            && 1 <= HopByHop(la.wire) <= |states[i].slots|
  {
    RunKeeps(states, steps, i);
    assert Recorded(states[i].slots[states[i].ledger[a].slot], states[i].ledger[a]);
    assert Recorded(states[i].slots[states[i].ledger[b].slot], states[i].ledger[b]);
  }

  // -------------------------------------------------------------- accounting

  predicate HoldsSlot(pc: Pc, i: nat)
  {
    match pc
    case Filling(_, slot, _) => slot == i
    case Offering(w) => w.slot == i
    case Sizing(w, _) => w.slot == i
    case Pushing(w, _) => w.slot == i
    case Closing(_, _, held) => held.Some? && held.value.slot == i
    case Sweeping(ms) => exists j :: 0 <= j < |ms| && ms[j].transaction == i
    case _ => false
  }

  ghost predicate InHands(s: State, i: nat)
  {
    exists t :: 0 <= t < |s.threads| && HoldsSlot(s.threads[t], i)
  }

  ghost predicate InQueue(s: State, i: nat)
  {
    exists k: nat, j: nat :: InQueueAt(s, k, j) && s.queues[k].messages[j].transaction == i
  }

  ghost predicate InPhase(s: State, i: nat, p: Phase)
  {
    exists r :: 0 <= r < |s.ledger| && s.ledger[r].phase == p && s.ledger[r].slot == i
  }

  lemma HandsOwner(s: State, t: nat, i: nat)
    requires Inv(s) && t < |s.threads| && HoldsSlot(s.threads[t], i)
    ensures i < |s.slots| && 0 <= s.slots[i].owner < |s.ledger|
    ensures BelongsTo(s.ledger[s.slots[i].owner].phase, t)
  {
    var pc := s.threads[t];
    assert ThreadOk(t, pc, s.ledger, |s.slots|);
    if pc.Sweeping? {
      var j :| 0 <= j < |pc.messages| && pc.messages[j].transaction == i;
      assert SweptOk(pc.messages[j], t, s.ledger);
    }
  }

  lemma OwnerHands(s: State, r: nat, t: nat)
    requires Inv(s) && r < |s.ledger| && BelongsTo(s.ledger[r].phase, t)
    ensures t < |s.threads| && HoldsSlot(s.threads[t], s.ledger[r].slot)
  {
    assert t < |s.threads|;
    var pc := s.threads[t];
    assert ThreadOk(t, pc, s.ledger, |s.slots|);
    assert Holds(pc, r);
    if pc.Sweeping? {
      var j :| 0 <= j < |pc.messages| && Carries(pc.messages[j], r);
      assert SweptOk(pc.messages[j], t, s.ledger);
    }
  }

  lemma QueueOwner(s: State, k: nat, j: nat, i: nat)
    requires Inv(s) && InQueueAt(s, k, j) && s.queues[k].messages[j].transaction == i
    ensures i < |s.slots| && 0 <= s.slots[i].owner < |s.ledger| && s.ledger[s.slots[i].owner].phase == Queued(k)
  {
    var m := s.queues[k].messages[j];
    assert QueueOk(k, s.queues[k], s.ledger);
    assert QueuedOk(m, k, s.queues[k].home, s.ledger);
    QueuedRequest(s, k, j);
  }

  lemma OwnerQueue(s: State, r: nat, k: nat)
    requires Inv(s) && r < |s.ledger| && s.ledger[r].phase == Queued(k)
    ensures InQueue(s, s.ledger[r].slot)
  {
    assert QueueOk(k, s.queues[k], s.ledger);
    var j :| 0 <= j < |s.queues[k].messages| && Carries(s.queues[k].messages[j], r);
    assert QueuedOk(s.queues[k].messages[j], k, s.queues[k].home, s.ledger);
    assert InQueueAt(s, k, j);
  }

  /** The phase of the request a used record serves tells where the record is accounted
      for, and nowhere else is it. */
  lemma AccountOf(s: State, i: nat)
    requires Inv(s) && i < |s.slots| && s.slots[i].used
    ensures var r := s.slots[i].owner;
            && 0 <= r < |s.ledger|
            && var p := s.ledger[r].phase;
               && (InHands(s, i) <==> p.Held? || p.Answered? || p.Swept?)
               && (InQueue(s, i) <==> p.Queued?)
               && (InPhase(s, i, InFlight) <==> p == InFlight)
               && (InPhase(s, i, Orphaned) <==> p == Orphaned)
               && Live(s.ledger[r])
  {
    var r := s.slots[i].owner;
    var p := s.ledger[r].phase;
    if InHands(s, i) {
      var t :| 0 <= t < |s.threads| && HoldsSlot(s.threads[t], i);
      HandsOwner(s, t, i);
    }
    if p.Held? || p.Answered? || p.Swept? {
      OwnerHands(s, r, p.thread);
    }
    if InQueue(s, i) {
      var k: nat, j: nat :| InQueueAt(s, k, j) && s.queues[k].messages[j].transaction == i;
      QueueOwner(s, k, j, i);
    }
    if p.Queued? {
      OwnerQueue(s, r, p.sock);
    }
  }

  /** Exact accounting, in every state of every run: a record is used if and only if it is
      in a thread's hands, or behind a queued request, or behind a request in flight, or
      behind one that was orphaned; and it is so in exactly one of these ways. */
  lemma SlotAccounting(states: seq<State>, steps: seq<Step>, n: nat, i: nat)
    requires IsRun(states, steps) && n < |states| && i < |states[n].slots|
    ensures var s := states[n];
            && (s.slots[i].used <==>
                  InHands(s, i) || InQueue(s, i) || InPhase(s, i, InFlight) || InPhase(s, i, Orphaned))
            && !(InHands(s, i) && InQueue(s, i))
            && !(InPhase(s, i, InFlight) && (InHands(s, i) || InQueue(s, i)))
            && !(InPhase(s, i, Orphaned) && (InHands(s, i) || InQueue(s, i) || InPhase(s, i, InFlight)))
  {
    RunKeeps(states, steps, n);
    var s := states[n];
    if s.slots[i].used {
      AccountOf(s, i);
    } else {
      NotAccounted(s, i);
    }
  }

  lemma NotAccounted(s: State, i: nat)
    requires Inv(s) && i < |s.slots| && !s.slots[i].used
    ensures !InHands(s, i) && !InQueue(s, i) && !InPhase(s, i, InFlight) && !InPhase(s, i, Orphaned)
  {
    if InHands(s, i) {
      var t :| 0 <= t < |s.threads| && HoldsSlot(s.threads[t], i);
      HandsOwner(s, t, i);
    }
    if InQueue(s, i) {
      var k: nat, j: nat :| InQueueAt(s, k, j) && s.queues[k].messages[j].transaction == i;
      QueueOwner(s, k, j, i);
    }
  }

  // --------------------------------------------- the transaction table in a run

  function TableOf(s: State): (t: TransactionTable.Table)
    ensures |t.used| == |s.slots|
  {
    TransactionTable.Table(seq(|s.slots|, i requires 0 <= i < |s.slots| => s.slots[i].used), s.cursor)
  }

  ghost function EventOf(s: State, step: Step): (e: TransactionTable.Event)
    requires CanDo(s, step)
  {
    match step
    case Probe(t) =>
      if !s.slots[s.cursor].used then TransactionTable.Take
      else if s.threads[t].probes + 1 > |s.slots| then TransactionTable.GiveUp
      else TransactionTable.Skip
    case ReleaseSlot(t) => TransactionTable.Release(s.threads[t].held.value.slot)
    case Sweep(t) =>
      if s.threads[t].messages[0].transaction > -1
      then TransactionTable.Release(s.threads[t].messages[0].transaction) else TransactionTable.Other
    case _ => TransactionTable.Other
  }

  lemma TableUpdate(s: State, s': State, i: nat, b: bool)
    requires i < |s.slots| == |s'.slots| && s'.slots == s.slots[i := s'.slots[i]] && s'.slots[i].used == b
    ensures TableOf(s').used == TableOf(s).used[i := b]
  {
  }

  lemma ProbeIsTableStep(s: State, t: nat)
    requires s.cursor < |s.slots| && t < |s.threads| && s.threads[t].Searching?
    ensures TransactionTable.Step(TableOf(s), EventOf(s, Probe(t)), TableOf(DoProbe(s, t)))
  {
    var s' := DoProbe(s, t);
    if !s.slots[s.cursor].used {
      TableUpdate(s, s', s.cursor, true);
    }
  }

  lemma FillIsTableStep(s: State, t: nat)
    requires CanDo(s, Fill(t))
    ensures TableOf(DoFill(s, t)) == TableOf(s)
  {
    var i := s.threads[t].slot;
    TableUpdate(s, DoFill(s, t), i, s.slots[i].used);
    assert TableOf(s).used[i := s.slots[i].used] == TableOf(s).used;
  }

  lemma ReleaseIsTableStep(s: State, s': State, i: nat)
    requires i < |s.slots| && s.cursor < |s.slots| && s'.slots == Release(s.slots, i) && s'.cursor == s.cursor
    ensures TransactionTable.Step(TableOf(s), TransactionTable.Release(i), TableOf(s'))
  {
    TableUpdate(s, s', i, false);
  }

  /** Nothing else touches the table. */
  lemma TableUntouched(s: State, step: Step)
    requires CanDo(s, step) && !step.Probe? && !step.Fill? && !step.ReleaseSlot? && !step.Sweep?
    ensures Do(s, step).slots == s.slots && Do(s, step).cursor == s.cursor
  {
  }

  lemma HeldSlots(s: State, t: nat)
    requires Inv(s) && t < |s.threads|
    ensures s.threads[t].Closing? && s.threads[t].held.Some? ==> s.threads[t].held.value.slot < |s.slots|
    ensures s.threads[t].Sweeping? && s.threads[t].messages != [] ==> s.threads[t].messages[0].transaction < |s.slots|
  {
    var pc := s.threads[t];
    assert ThreadOk(t, pc, s.ledger, |s.slots|);
    if pc.Sweeping? && pc.messages != [] {
      assert SweptOk(pc.messages[0], t, s.ledger);
    }
  }

  /** Seen from the table, every step of the proxy is a step of the table. */
  lemma StepIsTableStep(s: State, step: Step)
    requires Inv(s) && CanDo(s, step)
    ensures TransactionTable.Valid(TableOf(s))
    ensures TransactionTable.Step(TableOf(s), EventOf(s, step), TableOf(Do(s, step)))
  {
    if step.Probe? {
      ProbeIsTableStep(s, step.t);
    } else if step.Fill? {
      FillIsTableStep(s, step.t);
    } else if step.ReleaseSlot? {
      HeldSlots(s, step.t);
      ReleaseIsTableStep(s, DoReleaseSlot(s, step.t), s.threads[step.t].held.value.slot);
    } else if step.Sweep? {
      HeldSlots(s, step.t);
      var m := s.threads[step.t].messages[0];
      if m.transaction > -1 {
        ReleaseIsTableStep(s, DoSweep(s, step.t), m.transaction);
      }
    } else {
      TableUntouched(s, step);
    }
  }

  function TablesOf(states: seq<State>): (run: seq<TransactionTable.Table>)
    ensures |run| == |states|
  {
    seq(|states|, i requires 0 <= i < |states| => TableOf(states[i]))
  }

  ghost function EventsOf(states: seq<State>, steps: seq<Step>): (events: seq<TransactionTable.Event>)
    requires IsRun(states, steps)
    ensures |events| == |steps|
  {
    seq(|steps|, i requires 0 <= i < |steps| => EventOf(states[i], steps[i]))
  }

  lemma {:induction false} SameSize(states: seq<State>, steps: seq<Step>, i: nat)
    requires IsRun(states, steps) && i < |states|
    ensures |states[i].slots| == |states[0].slots|
  {
    if i > 0 {
      SameSize(states, steps, i - 1);
      RunKeeps(states, steps, i - 1);
      StepIsTableStep(states[i - 1], steps[i - 1]);
    }
  }

  lemma RunIsTableRun(states: seq<State>, steps: seq<Step>)
    requires IsRun(states, steps)
    ensures TransactionTable.IsRun(TablesOf(states), EventsOf(states, steps))
  {
    var run, events := TablesOf(states), EventsOf(states, steps);
    forall i | 0 <= i < |run| ensures TransactionTable.Valid(run[i]) && |run[i].used| == |run[0].used| {
      RunKeeps(states, steps, i);
      SameSize(states, steps, i);
    }
    forall i | 0 <= i < |events| ensures TransactionTable.Step(run[i], events[i], run[i + 1]) {
      RunKeeps(states, steps, i);
      StepIsTableStep(states[i], steps[i]);
    }
  }

  ghost predicate TakesAt(states: seq<State>, steps: seq<Step>, i: nat, x: nat)
    requires IsRun(states, steps)
  {
    i < |steps| && steps[i].Probe? && states[i].cursor == x && x < |states[i].slots| && !states[i].slots[x].used
  }

  /** Identifiers are reused late: between two moments at which the same record is given
      to a request, every other record has been in use. */
  lemma IdsReusedLate(states: seq<State>, steps: seq<Step>, i: nat, j: nat, x: nat, y: nat)
    requires IsRun(states, steps) && i < j && TakesAt(states, steps, i, x) && TakesAt(states, steps, j, x)
    requires y < |states[0].slots| && y != x
    ensures exists n :: i < n <= j && y < |states[n].slots| && states[n].slots[y].used
  {
    RunIsTableRun(states, steps);
    var run, events := TablesOf(states), EventsOf(states, steps);
    assert events[i] == TransactionTable.Take && events[j] == TransactionTable.Take;
    TransactionTable.DelayedReuse(run, events, i, j, x, y);
    var n :| i < n <= j && run[n].used[y];
    assert states[n].slots[y].used;
  }

  /** And no record is given to two requests unless it was released in between. */
  lemma NoSharing(states: seq<State>, steps: seq<Step>, i: nat, j: nat, x: nat)
    requires IsRun(states, steps) && i < j && TakesAt(states, steps, i, x) && TakesAt(states, steps, j, x)
    ensures exists n :: i < n < j && EventOf(states[n], steps[n]) == TransactionTable.Release(x)
  {
    RunIsTableRun(states, steps);
    var run, events := TablesOf(states), EventsOf(states, steps);
    TransactionTable.NoDoubleHandout(run, events, i, j, x);
    var n :| i < n < j && events[n] == TransactionTable.Release(x);
    assert EventOf(states[n], steps[n]) == TransactionTable.Release(x);
  }
}
