/** The octets that pass through the proxy: every answer in a queue was received, as it is but
    for its identifiers, in an earlier step, and every request goes out as it came in but for
    its identifiers. */
module ProxyOctets {
  import opened Octets
  import opened Codec
  import opened Pending
  import opened Proxy
  import opened ProxyInvariant
  import opened ProxySteps
  import opened ProxyThreads
  import EndToEndIds

  // ----------------------------------------------------------- answers, one step

  /** The message a thread is about to queue. */
  function InHand(pc: Pc): (m: Option<Message>)
  {
    if pc.Offering? || pc.Sizing? || pc.Pushing? then Some(pc.work.message) else None
  }

  predicate HasAnswer(pc: Pc)
  {
    InHand(pc).Some? && !IsRequest(InHand(pc).value.kind)
  }

  /** The same message, sent up to here or there. */
  predicate Same(a: Message, b: Message)
  {
    a == b.(sent := a.sent)
  }

  ghost predicate QueuedBefore(s: State, k: nat, m: Message)
  {
    exists j: nat :: InQueueAt(s, k, j) && Same(s.queues[k].messages[j], m)
  }

  ghost predicate HeldBefore(s: State, m: Message)
  {
    exists u :: 0 <= u < |s.threads| && InHand(s.threads[u]) == Some(m)
  }

  /** The step receives this answer, to a request that is waiting for it. */
  predicate Brings(s: State, step: Step, m: Message)
  {
    if m.kind == AnswerToClient
    then step.ServerAnswer? && step.request == m.note.request && step.bytes == m.note.received
         && FairAnswer(s, step.request, RequestToServer, step.bytes)
    else step.ClientAnswer? && step.request == m.note.request && step.bytes == m.note.received
         && FairAnswer(s, step.request, RequestToClient, step.bytes)
  }

  /** No thread holds an answer, and no queue, but one that was there before or that the step
      brings. */
  ghost predicate Traced(s: State, step: Step, s': State)
  {
    && (forall u :: 0 <= u < |s'.threads| && HasAnswer(s'.threads[u]) ==>
          (u < |s.threads| && InHand(s'.threads[u]) == InHand(s.threads[u]))
          || Brings(s, step, InHand(s'.threads[u]).value))
    && (forall k: nat, j: nat :: InQueueAt(s', k, j) ==>
          QueuedBefore(s, k, s'.queues[k].messages[j]) || HeldBefore(s, s'.queues[k].messages[j]))
  }

  /** A step that takes nothing into a thread's hands and leaves the messages of the queues. */
  lemma QuietTraced(s: State, step: Step, s': State)
    requires |s'.threads| == |s.threads|
    requires forall u :: 0 <= u < |s.threads| ==>
               InHand(s'.threads[u]) == InHand(s.threads[u]) || InHand(s'.threads[u]) == None
    requires forall k: nat, j: nat :: InQueueAt(s', k, j) ==>
               InQueueAt(s, k, j) && s'.queues[k].messages[j] == s.queues[k].messages[j]
    ensures Traced(s, step, s')
  {
    forall k: nat, j: nat | InQueueAt(s', k, j) ensures QueuedBefore(s, k, s'.queues[k].messages[j]) {
      assert Same(s.queues[k].messages[j], s'.queues[k].messages[j]);
    }
  }

  lemma ProbeTraced(s: State, t: nat)
    requires t < |s.threads| && s.threads[t].Searching? && s.cursor < |s.slots|
    ensures Traced(s, Probe(t), DoProbe(s, t))
  {
    QuietTraced(s, Probe(t), DoProbe(s, t));
  }

  lemma FillTraced(s: State, t: nat)
    requires CanDo(s, Fill(t)) && IsRequest(s.threads[t].task.kind)
    ensures Traced(s, Fill(t), DoFill(s, t))
  {
    var s' := DoFill(s, t);
    forall k: nat, j: nat | InQueueAt(s', k, j) ensures QueuedBefore(s, k, s'.queues[k].messages[j]) {
      assert InQueueAt(s, k, j) && Same(s.queues[k].messages[j], s'.queues[k].messages[j]);
    }
  }

  lemma PushTraced(s: State, t: nat)
    requires CanDo(s, Push(t))
    ensures Traced(s, Push(t), DoPush(s, t))
  {
    var s', m, sock := DoPush(s, t), s.threads[t].work.message, s.threads[t].sock;
    assert HeldBefore(s, m) by {
      assert InHand(s.threads[t]) == Some(m);
    }
    forall k: nat, j: nat | InQueueAt(s', k, j) && !HeldBefore(s, s'.queues[k].messages[j])
      ensures QueuedBefore(s, k, s'.queues[k].messages[j])
    {
      assert InQueueAt(s, k, j) && Same(s.queues[k].messages[j], s'.queues[k].messages[j]);
    }
  }

  lemma OfferTraced(s: State, step: Step)
    requires CanDo(s, step) && (step.Offer? || step.Size?)
    ensures Traced(s, step, Do(s, step))
  {
    QuietTraced(s, step, Do(s, step));
  }

  lemma ClosingTraced(s: State, step: Step)
    requires CanDo(s, step) && (step.CountDiscard? || step.ReleaseSlot?)
    ensures Traced(s, step, Do(s, step))
  {
    QuietTraced(s, step, Do(s, step));
  }

  lemma SendTraced(s: State, sock: nat, o: Outcome)
    requires CanDo(s, Send(sock, o))
    ensures Traced(s, Send(sock, o), DoSend(s, sock, o))
  {
    var s', q := DoSend(s, sock, o), s.queues[sock].messages;
    forall k: nat, j: nat | InQueueAt(s', k, j) ensures QueuedBefore(s, k, s'.queues[k].messages[j]) {
      var i := if k == sock && |s'.queues[k].messages| < |q| then j + 1 else j;
      assert InQueueAt(s, k, i) && Same(s.queues[k].messages[i], s'.queues[k].messages[j]);
    }
  }

  lemma CleaningTraced(s: State, step: Step)
    requires CanDo(s, step) && (step.StartClean? || step.Sweep? || step.Pop? || step.Attach?)
    ensures Traced(s, step, Do(s, step))
  {
    QuietTraced(s, step, Do(s, step));
  }

  lemma PeersTraced(s: State, step: Step)
    requires CanDo(s, step) && (step.Abandon? || step.Up? || step.Down?)
    ensures Traced(s, step, Do(s, step))
  {
    QuietTraced(s, step, Do(s, step));
  }

  lemma AnswerTraced(s: State, step: Step)
    requires CanDo(s, step) && (step.ServerAnswer? || step.ClientAnswer?)
    ensures Traced(s, step, Do(s, step))
  {
    var s' := Do(s, step);
    forall k: nat, j: nat | InQueueAt(s', k, j) ensures QueuedBefore(s, k, s'.queues[k].messages[j]) {
      assert InQueueAt(s, k, j) && Same(s.queues[k].messages[j], s'.queues[k].messages[j]);
    }
  }

  lemma ReceivingTraced(s: State, step: Step)
    requires CanDo(s, step) && (Starts(step) || step.CerLookup? || step.CerCommit?)
    ensures Traced(s, step, Do(s, step))
  {
    QuietTraced(s, step, Do(s, step));
  }

  lemma StepTraced(s: State, step: Step)
    requires Inv(s) && CanDo(s, step)
    ensures Traced(s, step, Do(s, step))
  {
    if step.Probe? {
      ProbeTraced(s, step.t);
    } else if step.Fill? {
      assert ThreadOk(step.t, s.threads[step.t], s.ledger, |s.slots|);
      FillTraced(s, step.t);
    } else if step.Push? {
      PushTraced(s, step.t);
    } else if step.Offer? || step.Size? {
      OfferTraced(s, step);
    } else if IsHandling(step) {
      ClosingTraced(s, step);
    } else if step.Send? {
      SendTraced(s, step.sock, step.outcome);
    } else if step.Abandon? || step.Up? || step.Down? {
      PeersTraced(s, step);
    } else if IsService(step) {
      CleaningTraced(s, step);
    } else if step.ServerAnswer? || step.ClientAnswer? {
      AnswerTraced(s, step);
    } else {
      ReceivingTraced(s, step);
    }
  }

  // ---------------------------------------------------------- answers, all runs

  /** Some step before the state with number `i` received this answer. */
  ghost predicate CameIn(states: seq<State>, steps: seq<Step>, i: nat, m: Message)
    requires i <= |steps| < |states|
  {
    exists l :: 0 <= l < i && Brings(states[l], steps[l], m)
  }

  ghost predicate AllCameIn(states: seq<State>, steps: seq<Step>, i: nat)
    requires |states| == |steps| + 1 && i < |states|
  {
    && (forall u :: 0 <= u < |states[i].threads| && HasAnswer(states[i].threads[u]) ==>
          CameIn(states, steps, i, InHand(states[i].threads[u]).value))
    && (forall k: nat, j: nat :: InQueueAt(states[i], k, j) && !IsRequest(states[i].queues[k].messages[j].kind) ==>
          CameIn(states, steps, i, states[i].queues[k].messages[j]))
  }

  ghost predicate AllTraced(states: seq<State>, steps: seq<Step>)
    requires |states| == |steps| + 1
  {
    && (forall t :: 0 <= t < |states[0].threads| ==> states[0].threads[t] == Idle)
    && (forall k :: 0 <= k < |states[0].queues| ==> states[0].queues[k] == Absent)
    && (forall n :: 0 <= n < |steps| ==> Traced(states[n], steps[n], states[n + 1]))
  }

  lemma RunTraced(states: seq<State>, steps: seq<Step>)
    requires IsRun(states, steps)
    ensures AllTraced(states, steps)
  {
    forall n | 0 <= n < |steps| ensures Traced(states[n], steps[n], states[n + 1]) {
      RunKeeps(states, steps, n);
      StepTraced(states[n], steps[n]);
    }
  }

  lemma StillIn(states: seq<State>, steps: seq<Step>, i: nat, a: Message, m: Message)
    requires i < |steps| < |states| && Same(a, m)
    requires CameIn(states, steps, i, a) || Brings(states[i], steps[i], m)
    ensures CameIn(states, steps, i + 1, m)
  {
    if CameIn(states, steps, i, a) {
      var l :| 0 <= l < i && Brings(states[l], steps[l], a);
      assert Brings(states[l], steps[l], m);
    }
  }

  lemma {:induction false} EachCameIn(states: seq<State>, steps: seq<Step>, i: nat)
    requires |states| == |steps| + 1 && i < |states| && AllTraced(states, steps)
    ensures AllCameIn(states, steps, i)
    decreases i
  {
    if i > 0 {
      EachCameIn(states, steps, i - 1);
      var s, s' := states[i - 1], states[i];
      assert Traced(s, steps[i - 1], states[i - 1 + 1]);
      forall u | 0 <= u < |s'.threads| && HasAnswer(s'.threads[u])
        ensures CameIn(states, steps, i, InHand(s'.threads[u]).value)
      {
        var m := InHand(s'.threads[u]).value;
        StillIn(states, steps, i - 1, m, m);
      }
      forall k: nat, j: nat | InQueueAt(s', k, j) && !IsRequest(s'.queues[k].messages[j].kind)
        ensures CameIn(states, steps, i, s'.queues[k].messages[j])
      {
        QueuedCameIn(states, steps, i - 1, k, s'.queues[k].messages[j]);
      }
    }
  }

  lemma QueuedCameIn(states: seq<State>, steps: seq<Step>, i: nat, k: nat, m: Message)
    requires |states| == |steps| + 1 && i < |steps| && AllCameIn(states, steps, i) && !IsRequest(m.kind)
    requires QueuedBefore(states[i], k, m) || HeldBefore(states[i], m)
    ensures CameIn(states, steps, i + 1, m)
  {
    var s := states[i];
    if QueuedBefore(s, k, m) {
      var j: nat :| InQueueAt(s, k, j) && Same(s.queues[k].messages[j], m);
      StillIn(states, steps, i, s.queues[k].messages[j], m);
    } else {
      var u :| 0 <= u < |s.threads| && InHand(s.threads[u]) == Some(m);
      StillIn(states, steps, i, m, m);
    }
  }

  /** In every run, an answer in a queue was received in an earlier step. */
  lemma AnswerCameIn(states: seq<State>, steps: seq<Step>, i: nat, k: nat, j: nat)
    requires IsRun(states, steps) && i < |states| && InQueueAt(states[i], k, j)
    requires !IsRequest(states[i].queues[k].messages[j].kind)
    ensures CameIn(states, steps, i, states[i].queues[k].messages[j])
  {
    RunTraced(states, steps);
    EachCameIn(states, steps, i);
  }

  // -------------------------------------------------------------------- requests

  /** What a request is sent as is what was received, but for the identifiers: both of them
      towards a server, the hop-by-hop identifier towards a client. */
  predicate PassedOn(r: Request)
  {
    r.wire != [] ==>
      && |r.wire| == |r.bytes|
      && forall x :: 0 <= x < |r.bytes| && !(12 <= x < (if r.kind == RequestToServer then 20 else 16)) ==>
           r.wire[x] == r.bytes[x]
  }

  ghost predicate AllPassedOn(ledger: seq<Request>)
  {
    forall r :: 0 <= r < |ledger| ==> PassedOn(ledger[r])
  }

  /** The step prepares no request: those of the ledger keep what they are, and new ones have
      not been prepared. */
  ghost predicate NonePrepared(s: State, s': State)
  {
    && |s.ledger| <= |s'.ledger|
    && (forall r :: 0 <= r < |s.ledger| ==> s'.ledger[r] == s.ledger[r].(phase := s'.ledger[r].phase))
    && (forall r :: |s.ledger| <= r < |s'.ledger| ==> s'.ledger[r].wire == [])
  }

  lemma WirePassesOn(r: Request, wire: seq<Byte>, hop: Word, end: Word)
    requires |r.bytes| >= HEADER_LENGTH
    requires wire == if r.kind == RequestToServer then WithIds(r.bytes, hop, end) else WithHopByHop(r.bytes, hop)
    ensures PassedOn(r.(wire := wire))
  {
    IdsReplaced(r.bytes, hop, end);
  }

  lemma FillPassesOn(s: State, t: nat)
    requires CanDo(s, Fill(t)) && PcOk(t, s.threads[t], s.ledger, |s.slots|) && AllPassedOn(s.ledger)
    ensures AllPassedOn(DoFill(s, t).ledger)
  {
    var task, i, r := s.threads[t].task, s.threads[t].slot, s.threads[t].request;
    var l' := DoFill(s, t).ledger;
    WirePassesOn(s.ledger[r], l'[r].wire, i + 1, EndToEndIds.Generate(task.client, s.config.seed, s.counts[t]));
    assert l' == s.ledger[r := s.ledger[r].(wire := l'[r].wire)];
  }

  lemma HandlingPrepares(s: State, step: Step)
    requires CanDo(s, step) && (step.Offer? || step.Size? || step.CountDiscard?)
    ensures NonePrepared(s, Do(s, step))
  {
    assert Do(s, step).ledger == s.ledger;
  }

  lemma PushPrepares(s: State, t: nat)
    requires CanDo(s, Push(t))
    ensures NonePrepared(s, DoPush(s, t))
  {
  }

  lemma ReleasePrepares(s: State, t: nat)
    requires t < |s.threads| && s.threads[t].Closing? && s.threads[t].held.Some?
    ensures NonePrepared(s, DoReleaseSlot(s, t))
  {
  }

  lemma ProbePrepares(s: State, t: nat)
    requires t < |s.threads| && s.threads[t].Searching? && s.cursor < |s.slots|
    ensures NonePrepared(s, DoProbe(s, t))
  {
  }

  lemma SendPrepares(s: State, k: nat, o: Outcome)
    requires CanDo(s, Send(k, o))
    ensures NonePrepared(s, DoSend(s, k, o))
  {
  }

  lemma StartCleanPrepares(s: State, t: nat, k: nat)
    requires t < |s.threads| && k < |s.queues| && s.queues[k].Present?
    ensures NonePrepared(s, DoStartClean(s, t, k))
  {
  }

  lemma SweepPrepares(s: State, t: nat)
    requires t < |s.threads| && s.threads[t].Sweeping? && s.threads[t].messages != []
    ensures NonePrepared(s, DoSweep(s, t))
  {
  }

  lemma PeersPrepare(s: State, step: Step)
    requires CanDo(s, step) && (step.Pop? || step.Up? || step.Down? || step.Attach?)
    ensures NonePrepared(s, Do(s, step))
  {
    assert Do(s, step).ledger == s.ledger;
  }

  lemma PhasePrepares(s: State, s': State, r: int, p: Phase)
    requires s'.ledger == SetPhase(s.ledger, r, p)
    ensures NonePrepared(s, s')
  {
  }

  lemma AnswerPrepares(s: State, step: Step)
    requires CanDo(s, step) && (step.ServerAnswer? || step.ClientAnswer?)
    ensures NonePrepared(s, Do(s, step))
  {
    var s' := Do(s, step);
    assert s'.ledger == s.ledger || s'.ledger == SetPhase(s.ledger, step.request, Answered(step.t));
    if s'.ledger != s.ledger {
      PhasePrepares(s, s', step.request, Answered(step.t));
    }
  }

  lemma ReceivingPrepares(s: State, step: Step)
    requires CanDo(s, step) && (Starts(step) || step.CerLookup? || step.CerCommit?)
    ensures NonePrepared(s, Do(s, step))
  {
    assert Do(s, step).ledger == s.ledger;
  }

  lemma StepPassesOn(s: State, step: Step)
    requires Inv(s) && CanDo(s, step) && AllPassedOn(s.ledger)
    ensures AllPassedOn(Do(s, step).ledger)
  {
    if step.Fill? {
      assert ThreadOk(step.t, s.threads[step.t], s.ledger, |s.slots|);
      FillPassesOn(s, step.t);
    } else {
      StepPrepares(s, step);
      NonePassedOn(s, Do(s, step));
    }
  }

  lemma NonePassedOn(s: State, s': State)
    requires NonePrepared(s, s') && AllPassedOn(s.ledger)
    ensures AllPassedOn(s'.ledger)
  {
    forall r | 0 <= r < |s'.ledger| ensures PassedOn(s'.ledger[r]) {
      assert r < |s.ledger| ==> PassedOn(s.ledger[r]);
    }
  }

  lemma StepPrepares(s: State, step: Step)
    requires CanDo(s, step) && !step.Fill?
    ensures NonePrepared(s, Do(s, step))
  {
    if step.Probe? {
      ProbePrepares(s, step.t);
    } else if step.Push? {
      PushPrepares(s, step.t);
    } else if step.ReleaseSlot? {
      ReleasePrepares(s, step.t);
    } else if IsHandling(step) {
      HandlingPrepares(s, step);
    } else if step.Send? {
      SendPrepares(s, step.sock, step.outcome);
    } else if step.StartClean? {
      StartCleanPrepares(s, step.t, step.sock);
    } else if step.Sweep? {
      SweepPrepares(s, step.t);
    } else if step.Abandon? {
      PhasePrepares(s, Do(s, step), step.request, Orphaned);
    } else if IsService(step) {
      PeersPrepare(s, step);
    } else if step.ServerAnswer? || step.ClientAnswer? {
      AnswerPrepares(s, step);
    } else {
      ReceivingPrepares(s, step);
    }
  }

  lemma {:induction false} RunPassesOn(states: seq<State>, steps: seq<Step>, i: nat)
    requires IsRun(states, steps) && i < |states|
    ensures AllPassedOn(states[i].ledger)
    decreases i
  {
    if i > 0 {
      RunPassesOn(states, steps, i - 1);
      RunKeeps(states, steps, i - 1);
      StepPassesOn(states[i - 1], steps[i - 1]);
    }
  }

  /** In every run, a request in a queue is octet by octet the one that was received, except
      for the identifiers, and it carries the number of its record. */
  lemma RequestUnchanged(states: seq<State>, steps: seq<Step>, i: nat, k: nat, j: nat)
    requires IsRun(states, steps) && i < |states| && InQueueAt(states[i], k, j)
    requires IsRequest(states[i].queues[k].messages[j].kind)
    ensures var s, m := states[i], states[i].queues[k].messages[j];
            && m.note.request < |s.ledger|
            && var r := s.ledger[m.note.request];
               && m.kind == r.kind && m.bytes == r.wire && |m.bytes| == |r.bytes| >= HEADER_LENGTH
               && HopByHop(m.bytes) == r.slot + 1
               && (m.kind == RequestToClient ==> EndToEnd(m.bytes) == EndToEnd(r.bytes))
               && forall x :: 0 <= x < |m.bytes| && !(12 <= x < 20) ==> m.bytes[x] == r.bytes[x]
  {
    RunKeeps(states, steps, i);
    RunPassesOn(states, steps, i);
    var s, m := states[i], states[i].queues[k].messages[j];
    assert QueueOk(k, s.queues[k], s.ledger);
    assert QueuedOk(m, k, s.queues[k].home, s.ledger);
    var r := s.ledger[m.note.request];
    assert Recorded(s.slots[r.slot], r) && PassedOn(r);
    if m.kind == RequestToClient {
      assert r.wire[16..16 + 4] == r.bytes[16..16 + 4];
      SameOctets(r.wire, 16, r.bytes, 16, 4);
    }
  }
}
