/** What the phases of a request stand for, over every run: it is in flight from the step that
    wrote its last octet until it is answered or abandoned, and it is orphaned by a sending
    that failed or by being abandoned. */
module ProxyPhases {
  import opened Octets
  import opened Codec
  import opened Pending
  import opened Proxy
  import opened ProxyInvariant
  import opened ProxySteps
  import opened ProxyThreads

  // -------------------------------------------------------------------------- events

  /** The step attempts to send the message in front of a queue, which is this request. */
  predicate Attempts(s: State, step: Step, r: nat)
  {
    step.Send? && InQueueAt(s, step.sock, 0) && Carries(s.queues[step.sock].messages[0], r)
  }

  /** Its last octet is written. */
  predicate SendsAll(s: State, step: Step, r: nat)
  {
    && Attempts(s, step, r) && step.outcome.Wrote?
    && s.queues[step.sock].messages[0].sent + step.outcome.n == |s.queues[step.sock].messages[0].bytes|
  }

  /** The sending fails and the message is dropped. */
  predicate FailsToSend(s: State, step: Step, r: nat)
  {
    Attempts(s, step, r) && (step.outcome == Failed || step.outcome == WroteNothing(true))
  }

  /** An answer to this request arrives, under an identifier that selects a record. */
  predicate IsAnswered(s: State, step: Step, r: nat)
  {
    && (step.ServerAnswer? || step.ClientAnswer?) && step.request == r
    && |step.bytes| >= HEADER_LENGTH && |s.slots| >= 1 && Locate(HopByHop(step.bytes), |s.slots|).Some?
  }

  predicate IsAbandoned(step: Step, r: nat)
  {
    step == Abandon(r)
  }

  // ------------------------------------------------------------------------ one step

  predicate InFlightAt(s: State, r: nat)
  {
    r < |s.ledger| && s.ledger[r].phase == InFlight
  }

  predicate OrphanedAt(s: State, r: nat)
  {
    r < |s.ledger| && s.ledger[r].phase == Orphaned
  }

  /** How a step changes whether a request is in flight or orphaned. */
  ghost predicate PhaseStep(s: State, step: Step, s': State, r: nat)
  {
    && (SendsAll(s, step, r) || FailsToSend(s, step, r) ==> !InFlightAt(s, r) && !OrphanedAt(s, r))
    && (IsAnswered(s, step, r) || IsAbandoned(step, r) ==> InFlightAt(s, r))
    && (InFlightAt(s', r) <==>
          SendsAll(s, step, r) || (InFlightAt(s, r) && !IsAnswered(s, step, r) && !IsAbandoned(step, r)))
    && (OrphanedAt(s', r) <==> FailsToSend(s, step, r) || IsAbandoned(step, r) || OrphanedAt(s, r))
  }

  /** Steps that are none of these and leave the two phases alone. */
  ghost predicate Unconcerned(s: State, s': State, r: nat)
  {
    (InFlightAt(s', r) <==> InFlightAt(s, r)) && (OrphanedAt(s', r) <==> OrphanedAt(s, r))
  }

  lemma SendPhase(s: State, k: nat, o: Outcome, r: nat)
    requires Inv(s) && CanDo(s, Send(k, o))
    ensures PhaseStep(s, Send(k, o), DoSend(s, k, o), r)
  {
    var q := s.queues[k];
    assert QueueOk(k, q, s.ledger);
    assert QueuedOk(q.messages[0], k, q.home, s.ledger);
    SentPhase(s, k, o, r, q.messages[0]);
  }

  lemma SentPhase(s: State, k: nat, o: Outcome, r: nat, m: Message)
    requires CanDo(s, Send(k, o)) && m == s.queues[k].messages[0] && m.note.request < |s.ledger|
    requires IsRequest(m.kind) ==> s.ledger[m.note.request].phase == Queued(k)
    ensures PhaseStep(s, Send(k, o), DoSend(s, k, o), r)
  {
    var step := Send(k, o);
    assert Attempts(s, step, r) <==> Carries(m, r);
    assert DoSend(s, k, o).ledger == LedgerAfterSend(s.ledger, m, o);
  }

  lemma PushPhase(s: State, t: nat, r: nat)
    requires Inv(s) && CanDo(s, Push(t))
    ensures Unconcerned(s, DoPush(s, t), r)
  {
    assert ThreadOk(t, s.threads[t], s.ledger, |s.slots|);
  }

  lemma ReleasePhase(s: State, t: nat, r: nat)
    requires Inv(s) && t < |s.threads| && s.threads[t].Closing? && s.threads[t].held.Some?
    ensures Unconcerned(s, DoReleaseSlot(s, t), r)
  {
    assert ThreadOk(t, s.threads[t], s.ledger, |s.slots|);
  }

  lemma SweepPhase(s: State, t: nat, r: nat)
    requires Inv(s) && t < |s.threads| && s.threads[t].Sweeping? && s.threads[t].messages != []
    ensures Unconcerned(s, DoSweep(s, t), r)
  {
    assert ThreadOk(t, s.threads[t], s.ledger, |s.slots|);
    assert SweptOk(s.threads[t].messages[0], t, s.ledger);
  }

  lemma StartCleanPhase(s: State, t: nat, k: nat, r: nat)
    requires t < |s.threads| && k < |s.queues| && s.queues[k].Present?
    ensures Unconcerned(s, DoStartClean(s, t, k), r)
  {
  }

  lemma ProbePhase(s: State, t: nat, r: nat)
    requires t < |s.threads| && s.threads[t].Searching? && s.cursor < |s.slots|
    ensures Unconcerned(s, DoProbe(s, t), r)
  {
  }

  lemma FillPhase(s: State, t: nat, r: nat)
    requires CanDo(s, Fill(t))
    ensures Unconcerned(s, DoFill(s, t), r)
  {
  }

  lemma PlainPhase(s: State, step: Step, r: nat)
    requires CanDo(s, step) && (step.Offer? || step.Size? || step.CountDiscard?)
    ensures Unconcerned(s, Do(s, step), r)
  {
    assert Do(s, step).ledger == s.ledger;
  }

  lemma PeersPhase(s: State, step: Step, r: nat)
    requires CanDo(s, step) && (step.Pop? || step.Up? || step.Down? || step.Attach?)
    ensures Unconcerned(s, Do(s, step), r)
  {
    assert Do(s, step).ledger == s.ledger;
  }

  lemma ReceivingPhase(s: State, step: Step, r: nat)
    requires CanDo(s, step) && (Starts(step) || step.CerLookup? || step.CerCommit?)
    ensures Unconcerned(s, Do(s, step), r)
  {
    assert Do(s, step).ledger == s.ledger;
  }

  lemma AnswerPhase(s: State, step: Step, r: nat)
    requires Inv(s) && CanDo(s, step) && (step.ServerAnswer? || step.ClientAnswer?)
    ensures PhaseStep(s, step, Do(s, step), r)
  {
    if Locate(HopByHop(step.bytes), |s.slots|) == None {
      assert Do(s, step).ledger == s.ledger;
    } else {
      var kind := if step.ServerAnswer? then RequestToServer else RequestToClient;
      AnswerFindsRecord(s, step.request, kind, step.bytes);
      AnsweredLedger(s, step);
    }
  }

  lemma AnsweredLedger(s: State, step: Step)
    requires CanDo(s, step) && (step.ServerAnswer? || step.ClientAnswer?)
    requires step.request < |s.ledger| && Locate(HopByHop(step.bytes), |s.slots|) == Some(s.ledger[step.request].slot)
    requires s.ledger[step.request].slot < |s.slots|
    requires step.ClientAnswer? ==> s.slots[s.ledger[step.request].slot].answerTo >= 0
    ensures Do(s, step).ledger == SetPhase(s.ledger, step.request, Answered(step.t))
  {
  }

  lemma AbandonPhase(s: State, x: nat, r: nat)
    requires CanDo(s, Abandon(x))
    ensures PhaseStep(s, Abandon(x), Do(s, Abandon(x)), r)
  {
  }

  lemma HandlingPhase(s: State, step: Step, r: nat)
    requires Inv(s) && CanDo(s, step) && IsHandling(step)
    ensures Unconcerned(s, Do(s, step), r)
  {
    if step.Push? {
      PushPhase(s, step.t, r);
    } else if step.ReleaseSlot? {
      ReleasePhase(s, step.t, r);
    } else if step.Probe? {
      ProbePhase(s, step.t, r);
    } else if step.Fill? {
      FillPhase(s, step.t, r);
    } else {
      PlainPhase(s, step, r);
    }
  }

  lemma StepPhase(s: State, step: Step, r: nat)
    requires Inv(s) && CanDo(s, step)
    ensures PhaseStep(s, step, Do(s, step), r)
  {
    if step.Send? {
      SendPhase(s, step.sock, step.outcome, r);
    } else if step.ServerAnswer? || step.ClientAnswer? {
      AnswerPhase(s, step, r);
    } else if step.Abandon? {
      AbandonPhase(s, step.request, r);
    } else {
      OtherPhase(s, step, r);
      NoEvent(s, step, Do(s, step), r);
    }
  }

  lemma NoEvent(s: State, step: Step, s': State, r: nat)
    requires !step.Send? && !step.ServerAnswer? && !step.ClientAnswer? && !step.Abandon? && Unconcerned(s, s', r)
    ensures PhaseStep(s, step, s', r)
  {
  }

  lemma OtherPhase(s: State, step: Step, r: nat)
    requires Inv(s) && CanDo(s, step)
    requires !step.Send? && !step.ServerAnswer? && !step.ClientAnswer? && !step.Abandon?
    ensures Unconcerned(s, Do(s, step), r)
  {
    if IsHandling(step) {
      HandlingPhase(s, step, r);
    } else if step.Sweep? {
      SweepPhase(s, step.t, r);
    } else if step.StartClean? {
      StartCleanPhase(s, step.t, step.sock, r);
    } else if IsService(step) {
      PeersPhase(s, step, r);
    } else {
      ReceivingPhase(s, step, r);
    }
  }

  // ------------------------------------------------------------------------ all runs

  ghost predicate AllPhaseSteps(states: seq<State>, steps: seq<Step>, r: nat)
    requires |states| == |steps| + 1
  {
    && states[0].ledger == []
    && forall n :: 0 <= n < |steps| ==> PhaseStep(states[n], steps[n], states[n + 1], r)
  }

  lemma RunPhaseSteps(states: seq<State>, steps: seq<Step>, r: nat)
    requires IsRun(states, steps)
    ensures AllPhaseSteps(states, steps, r)
  {
    forall n | 0 <= n < |steps| ensures PhaseStep(states[n], steps[n], states[n + 1], r) {
      RunKeeps(states, steps, n);
      StepPhase(states[n], steps[n], r);
    }
  }

  /** Step `n` wrote the last octet of the request, and it was neither answered nor abandoned
      before the state number `i`. */
  ghost predicate Underway(states: seq<State>, steps: seq<Step>, n: nat, i: nat, r: nat)
    requires i <= |steps| < |states|
  {
    && n < i && SendsAll(states[n], steps[n], r)
    && forall l :: n < l < i ==> !IsAnswered(states[l], steps[l], r) && !IsAbandoned(steps[l], r)
  }

  lemma {:induction false} FlightBegan(states: seq<State>, steps: seq<Step>, i: nat, r: nat)
    requires |states| == |steps| + 1 && i < |states| && AllPhaseSteps(states, steps, r) && InFlightAt(states[i], r)
    ensures exists n :: Underway(states, steps, n, i, r)
    decreases i
  {
    if i > 0 {
      assert PhaseStep(states[i - 1], steps[i - 1], states[i - 1 + 1], r);
      if SendsAll(states[i - 1], steps[i - 1], r) {
        assert Underway(states, steps, i - 1, i, r);
      } else {
        FlightBegan(states, steps, i - 1, r);
        var n :| Underway(states, steps, n, i - 1, r);
        assert Underway(states, steps, n, i, r);
      }
    }
  }

  lemma {:induction false} FlightLasts(states: seq<State>, steps: seq<Step>, n: nat, i: nat, r: nat)
    requires |states| == |steps| + 1 && i < |states| && AllPhaseSteps(states, steps, r)
    requires Underway(states, steps, n, i, r)
    ensures InFlightAt(states[i], r)
    decreases i
  {
    assert PhaseStep(states[i - 1], steps[i - 1], states[i - 1 + 1], r);
    if n < i - 1 {
      FlightLasts(states, steps, n, i - 1, r);
    }
  }

  /** In every run a request is in flight exactly if an earlier step wrote its last octet and no
      later one answered or abandoned it. */
  lemma InFlightExactly(states: seq<State>, steps: seq<Step>, i: nat, r: nat)
    requires IsRun(states, steps) && i < |states|
    ensures InFlightAt(states[i], r) <==> exists n :: Underway(states, steps, n, i, r)
  {
    RunPhaseSteps(states, steps, r);
    if InFlightAt(states[i], r) {
      FlightBegan(states, steps, i, r);
    }
    if n :| Underway(states, steps, n, i, r) {
      FlightLasts(states, steps, n, i, r);
    }
  }

  /** Step `n` lost the request. */
  predicate Loses(states: seq<State>, steps: seq<Step>, n: nat, r: nat)
    requires n < |steps| < |states|
  {
    FailsToSend(states[n], steps[n], r) || IsAbandoned(steps[n], r)
  }

  /** In every run a request is orphaned exactly if an earlier step failed to send it or it was
      abandoned; and so it stays. */
  lemma {:induction false} OrphanedByLoss(states: seq<State>, steps: seq<Step>, i: nat, r: nat)
    requires |states| == |steps| + 1 && i < |states| && AllPhaseSteps(states, steps, r)
    ensures OrphanedAt(states[i], r) <==> exists n :: 0 <= n < i && Loses(states, steps, n, r)
    decreases i
  {
    if i > 0 {
      OrphanedByLoss(states, steps, i - 1, r);
      assert PhaseStep(states[i - 1], steps[i - 1], states[i - 1 + 1], r);
      assert Loses(states, steps, i - 1, r)
             <==> FailsToSend(states[i - 1], steps[i - 1], r) || IsAbandoned(steps[i - 1], r);
    }
  }

  lemma OrphanedExactly(states: seq<State>, steps: seq<Step>, i: nat, r: nat)
    requires IsRun(states, steps) && i < |states|
    ensures OrphanedAt(states[i], r) <==> exists n :: 0 <= n < i && Loses(states, steps, n, r)
  {
    RunPhaseSteps(states, steps, r);
    OrphanedByLoss(states, steps, i, r);
  }
}
