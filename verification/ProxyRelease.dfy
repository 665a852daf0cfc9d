/** What becomes of a request that cannot be queued: its transaction is released, in every
    run, before the thread turns to anything else. */
module ProxyRelease {
  import opened Octets
  import opened Codec
  import opened Pending
  import opened Proxy
  import opened ProxyInvariant
  import opened ProxySteps
  import opened ProxyThreads

  /** The thread has still to release the transaction of this request. */
  predicate MustRelease(s: State, t: nat, h: Hold)
  {
    t < |s.threads| && s.threads[t].Closing? && s.threads[t].held == Some(h)
  }

  predicate IsClosed(s: State, r: nat)
  {
    r < |s.ledger| && s.ledger[r].phase == Closed
  }

  // ------------------------------------------------ a closed request stays closed

  lemma PushClosed(s: State, t: nat, r: nat)
    requires Inv(s) && CanDo(s, Push(t)) && IsClosed(s, r)
    ensures IsClosed(DoPush(s, t), r)
  {
    assert ThreadOk(t, s.threads[t], s.ledger, |s.slots|);
  }

  lemma SendClosed(s: State, k: nat, o: Outcome, r: nat)
    requires Inv(s) && CanDo(s, Send(k, o)) && IsClosed(s, r)
    ensures IsClosed(DoSend(s, k, o), r)
  {
    var q := s.queues[k];
    assert QueueOk(k, q, s.ledger);
    assert QueuedOk(q.messages[0], k, q.home, s.ledger);
  }

  lemma AnswerClosed(s: State, step: Step, r: nat)
    requires CanDo(s, step) && IsClosed(s, r) && (step.ServerAnswer? || step.ClientAnswer?)
    ensures IsClosed(Do(s, step), r)
  {
  }

  lemma StepClosed(s: State, step: Step, r: nat)
    requires Inv(s) && CanDo(s, step) && IsClosed(s, r)
    ensures IsClosed(Do(s, step), r)
  {
    if step.Push? {
      PushClosed(s, step.t, r);
    } else if step.Send? {
      SendClosed(s, step.sock, step.outcome, r);
    } else if IsHandling(step) {
      HandlingClosed(s, step, r);
    } else if IsService(step) {
      ServiceClosed(s, step, r);
    } else if step.ServerAnswer? || step.ClientAnswer? {
      AnswerClosed(s, step, r);
    } else {
      ReceivingClosed(s, step, r);
    }
  }

  lemma HandlingClosed(s: State, step: Step, r: nat)
    requires CanDo(s, step) && IsHandling(step) && !step.Push? && IsClosed(s, r)
    ensures IsClosed(Do(s, step), r)
  {
    if step.Probe? {
      ProbeClosed(s, step.t, r);
    } else if step.Fill? {
      FillClosed(s, step.t, r);
    }
  }

  lemma ServiceClosed(s: State, step: Step, r: nat)
    requires CanDo(s, step) && IsService(step) && !step.Send? && IsClosed(s, r)
    ensures IsClosed(Do(s, step), r)
  {
  }

  lemma ReceivingClosed(s: State, step: Step, r: nat)
    requires CanDo(s, step) && IsClosed(s, r)
    requires step.ClientRequest? || step.ServerRequest? || step.CerLookup? || step.CerCommit?
    ensures IsClosed(Do(s, step), r)
  {
  }

  lemma ProbeClosed(s: State, t: nat, r: nat)
    requires t < |s.threads| && s.threads[t].Searching? && s.cursor < |s.slots| && IsClosed(s, r)
    ensures IsClosed(DoProbe(s, t), r)
  {
  }

  lemma FillClosed(s: State, t: nat, r: nat)
    requires CanDo(s, Fill(t)) && IsClosed(s, r)
    ensures IsClosed(DoFill(s, t), r)
  {
  }

  // ---------------------------------------------------------------------- release

  lemma OwnStep(s: State, step: Step, t: nat, h: Hold)
    requires Inv(s) && CanDo(s, step) && MustRelease(s, t, h) && (step == CountDiscard(t) || step == ReleaseSlot(t))
    ensures MustRelease(Do(s, step), t, h) || IsClosed(Do(s, step), h.request)
  {
    assert ThreadOk(t, s.threads[t], s.ledger, |s.slots|);
  }

  /** A thread with a transaction to release does nothing else to it. */
  lemma StepReleases(s: State, step: Step, t: nat, h: Hold)
    requires Inv(s) && CanDo(s, step) && MustRelease(s, t, h)
    ensures MustRelease(Do(s, step), t, h) || IsClosed(Do(s, step), h.request)
  {
    if step == CountDiscard(t) || step == ReleaseSlot(t) {
      OwnStep(s, step, t, h);
    } else {
      Elsewhere(s, step, t);
    }
  }

  lemma {:induction false} HeldUntilReleased(states: seq<State>, steps: seq<Step>, i: nat, j: nat, t: nat, h: Hold)
    requires IsRun(states, steps) && i <= j < |states| && MustRelease(states[i], t, h)
    ensures MustRelease(states[j], t, h) || IsClosed(states[j], h.request)
    decreases j
  {
    if i < j {
      HeldUntilReleased(states, steps, i, j - 1, t, h);
      RunKeeps(states, steps, j - 1);
      if IsClosed(states[j - 1], h.request) {
        StepClosed(states[j - 1], steps[j - 1], h.request);
      } else {
        StepReleases(states[j - 1], steps[j - 1], t, h);
      }
    }
  }

  /** A message that its destination cannot take, because there is none in service or its
      queue is full, is rejected, and when its thread is idle again the transaction behind
      it has been released. */
  lemma RejectedIsReleased(states: seq<State>, steps: seq<Step>, i: nat, j: nat, t: nat)
    requires IsRun(states, steps) && i < j < |states| && (steps[i] == Offer(t) || steps[i] == Size(t))
    requires states[i + 1].threads[t].Closing? && IsIdle(states[j], t)
    ensures IsClosed(states[j], states[i].threads[t].work.message.note.request)
  {
    var w := states[i].threads[t].work;
    var h := Hold(w.slot, w.message.note.request);
    Rejection(states[i], steps[i], t);
    HeldUntilReleased(states, steps, i + 1, j, t, h);
  }

  lemma Rejection(s: State, step: Step, t: nat)
    requires CanDo(s, step) && (step == Offer(t) || step == Size(t)) && Do(s, step).threads[t].Closing?
    ensures MustRelease(Do(s, step), t, Hold(s.threads[t].work.slot, s.threads[t].work.message.note.request))
  {
  }
}
