/** The three counters of a connection and kind of message, each by itself, over every run: they
    are the numbers of the steps that receive, that send and that discard such a message. */
module ProxyTallies {
  import opened Octets
  import opened Codec
  import opened Pending
  import opened Proxy
  import opened ProxyInvariant
  import opened ProxySteps
  import opened ProxyThreads
  import opened ProxyCounting

  // ---------------------------------------------------------------------- the events

  /** A message of this connection and kind is received. An answer of a client belongs to the
      connection of the request it answers. */
  predicate Receipt(s: State, step: Step, cell: Cell)
  {
    match step
    case ClientRequest(_, _, k, _) => cell == Cell(k, RequestToServer)
    case ServerRequest(_, k, _, _) => cell == Cell(k, RequestToClient)
    case ServerAnswer(_, k, _, _) => cell == Cell(k, AnswerToClient)
    case ClientAnswer(_, r, bytes) =>
      && |bytes| >= HEADER_LENGTH && 1 <= HopByHop(bytes) <= |s.slots|
      && r < |s.ledger| && cell == Cell(s.ledger[r].connection, AnswerToServer)
    case _ => false
  }

  /** The message in front of a queue is of this cell. */
  predicate InFront(s: State, sock: nat, cell: Cell)
  {
    InQueueAt(s, sock, 0) && CellOf(s.queues[sock].messages[0]) == cell
  }

  predicate Sending(s: State, step: Step, cell: Cell)
  {
    step.Send? && InFront(s, step.sock, cell) && Completes(s.queues[step.sock].messages[0], step.outcome)
  }

  /** It is discarded, or counted as if it were: an attempt to send it errs, a full queue rejects
      it, it is swept out of a removed queue, or its thread counts it after giving it up. */
  predicate Discard(s: State, step: Step, cell: Cell)
  {
    || (step.Send? && InFront(s, step.sock, cell) && Errs(step.outcome))
    || Rejects(s, step, cell)
    || (step.Sweep? && step.t < |s.threads| && s.threads[step.t].Sweeping? && s.threads[step.t].messages != []
        && CellOf(s.threads[step.t].messages[0]) == cell)
    || (step.CountDiscard? && step.t < |s.threads| && s.threads[step.t].Closing? && s.threads[step.t].cell == cell)
  }

  // ------------------------------------------------------------------------ one step

  ghost predicate TallyStep(s: State, step: Step, s': State, cell: Cell)
  {
    var a, b := At(s.counters, cell), At(s'.counters, cell);
    && b.received == a.received + One(Receipt(s, step, cell))
    && b.sent == a.sent + One(Sending(s, step, cell))
    && b.discarded == a.discarded + One(Discard(s, step, cell))
  }

  lemma SendTally(s: State, k: nat, o: Outcome, cell: Cell)
    requires CanDo(s, Send(k, o))
    ensures TallyStep(s, Send(k, o), DoSend(s, k, o), cell)
  {
    AttemptCounted(s.counters, s.queues[k].messages[0], o, cell);
  }

  lemma SizeTally(s: State, t: nat, cell: Cell)
    requires CanDo(s, Size(t))
    ensures TallyStep(s, Size(t), DoSize(s, t), cell)
  {
  }

  lemma SweepTally(s: State, t: nat, cell: Cell)
    requires t < |s.threads| && s.threads[t].Sweeping? && s.threads[t].messages != []
    ensures TallyStep(s, Sweep(t), DoSweep(s, t), cell)
  {
  }

  lemma DiscardTally(s: State, t: nat, cell: Cell)
    requires t < |s.threads| && s.threads[t].Closing?
    ensures TallyStep(s, CountDiscard(t), DoCountDiscard(s, t), cell)
  {
  }

  lemma RequestTally(s: State, step: Step, cell: Cell)
    requires CanDo(s, step) && Starts(step)
    ensures TallyStep(s, step, Do(s, step), cell)
  {
  }

  lemma ServerAnswerTally(s: State, t: nat, k: nat, r: nat, bytes: seq<Byte>, cell: Cell)
    requires IsIdle(s, t) && |bytes| >= HEADER_LENGTH && |s.slots| >= 1
    ensures TallyStep(s, ServerAnswer(t, k, r, bytes), DoServerAnswer(s, t, k, r, bytes), cell)
  {
  }

  lemma ClientAnswerTally(s: State, t: nat, r: nat, bytes: seq<Byte>, cell: Cell)
    requires Inv(s) && CanDo(s, ClientAnswer(t, r, bytes))
    ensures TallyStep(s, ClientAnswer(t, r, bytes), DoClientAnswer(s, t, r, bytes), cell)
  {
    LocateRange(HopByHop(bytes), |s.slots|);
    if Locate(HopByHop(bytes), |s.slots|).Some? {
      AnswerFindsRecord(s, r, RequestToClient, bytes);
      FoundTally(s, t, r, bytes, cell);
    }
  }

  lemma FoundTally(s: State, t: nat, r: nat, bytes: seq<Byte>, cell: Cell)
    requires t < |s.threads| && |bytes| >= HEADER_LENGTH && r < |s.ledger| && s.ledger[r].slot < |s.slots|
    requires Locate(HopByHop(bytes), |s.slots|) == Some(s.ledger[r].slot) && 1 <= HopByHop(bytes) <= |s.slots|
    requires s.slots[s.ledger[r].slot].answerTo == s.ledger[r].connection
    ensures TallyStep(s, ClientAnswer(t, r, bytes), DoClientAnswer(s, t, r, bytes), cell)
  {
  }

  /** The other steps leave the counters alone. */
  lemma FillTally(s: State, t: nat)
    requires CanDo(s, Fill(t))
    ensures DoFill(s, t).counters == s.counters
  {
  }

  lemma HandlingTally(s: State, step: Step)
    requires CanDo(s, step) && (step.Probe? || step.Offer? || step.Push? || step.ReleaseSlot?)
    ensures Do(s, step).counters == s.counters
  {
  }

  lemma PeersTally(s: State, step: Step)
    requires CanDo(s, step) && IsService(step) && !step.Send? && !step.Sweep?
    ensures Do(s, step).counters == s.counters
  {
  }

  lemma CerTally(s: State, step: Step)
    requires CanDo(s, step) && (step.CerLookup? || step.CerCommit?)
    ensures Do(s, step).counters == s.counters
  {
  }

  lemma NoTally(s: State, step: Step, s': State, cell: Cell)
    requires s'.counters == s.counters
    requires !Receipt(s, step, cell) && !Sending(s, step, cell) && !Discard(s, step, cell)
    ensures TallyStep(s, step, s', cell)
  {
  }

  lemma QuietTally(s: State, step: Step, cell: Cell)
    requires CanDo(s, step) && !Starts(step) && !step.ServerAnswer? && !step.ClientAnswer?
    requires !step.Send? && !step.Size? && !step.Sweep? && !step.CountDiscard?
    ensures TallyStep(s, step, Do(s, step), cell)
  {
    if step.Fill? {
      FillTally(s, step.t);
    } else if IsHandling(step) {
      HandlingTally(s, step);
    } else if IsService(step) {
      PeersTally(s, step);
    } else {
      CerTally(s, step);
    }
    NoTally(s, step, Do(s, step), cell);
  }

  lemma StepTally(s: State, step: Step, cell: Cell)
    requires Inv(s) && CanDo(s, step)
    ensures TallyStep(s, step, Do(s, step), cell)
  {
    if step.Send? {
      SendTally(s, step.sock, step.outcome, cell);
    } else if step.Size? {
      SizeTally(s, step.t, cell);
    } else if step.Sweep? {
      SweepTally(s, step.t, cell);
    } else if step.CountDiscard? {
      DiscardTally(s, step.t, cell);
    } else if Starts(step) {
      RequestTally(s, step, cell);
    } else if step.ServerAnswer? {
      ServerAnswerTally(s, step.t, step.connection, step.request, step.bytes, cell);
    } else if step.ClientAnswer? {
      ClientAnswerTally(s, step.t, step.request, step.bytes, cell);
    } else {
      QuietTally(s, step, cell);
    }
  }

  // ------------------------------------------------------------------------ all runs

  function Receipts(states: seq<State>, steps: seq<Step>, i: nat, cell: Cell): (n: nat)
    requires i <= |steps| < |states|
  {
    if i == 0 then 0
    else Receipts(states, steps, i - 1, cell) + One(Receipt(states[i - 1], steps[i - 1], cell))
  }

  function Sendings(states: seq<State>, steps: seq<Step>, i: nat, cell: Cell): (n: nat)
    requires i <= |steps| < |states|
  {
    if i == 0 then 0
    else Sendings(states, steps, i - 1, cell) + One(Sending(states[i - 1], steps[i - 1], cell))
  }

  function Discards(states: seq<State>, steps: seq<Step>, i: nat, cell: Cell): (n: nat)
    requires i <= |steps| < |states|
  {
    if i == 0 then 0
    else Discards(states, steps, i - 1, cell) + One(Discard(states[i - 1], steps[i - 1], cell))
  }

  ghost predicate AllTallySteps(states: seq<State>, steps: seq<Step>, cell: Cell)
    requires |states| == |steps| + 1
  {
    && states[0].counters == map[]
    && forall n :: 0 <= n < |steps| ==> TallyStep(states[n], steps[n], states[n + 1], cell)
  }

  lemma RunTallySteps(states: seq<State>, steps: seq<Step>, cell: Cell)
    requires IsRun(states, steps)
    ensures AllTallySteps(states, steps, cell)
  {
    forall n | 0 <= n < |steps| ensures TallyStep(states[n], steps[n], states[n + 1], cell) {
      RunKeeps(states, steps, n);
      StepTally(states[n], steps[n], cell);
    }
  }

  lemma {:induction false} TalliesAdd(states: seq<State>, steps: seq<Step>, i: nat, cell: Cell)
    requires |states| == |steps| + 1 && i < |states| && AllTallySteps(states, steps, cell)
    ensures At(states[i].counters, cell)
            == Tally(Receipts(states, steps, i, cell), Sendings(states, steps, i, cell),
                     Discards(states, steps, i, cell))
    decreases i
  {
    if i > 0 {
      TalliesAdd(states, steps, i - 1, cell);
      assert TallyStep(states[i - 1], steps[i - 1], states[i - 1 + 1], cell);
    }
  }

  /** In every run, for every connection and kind of message, each counter is the number of steps
      so far that it should count. */
  lemma CountersCount(states: seq<State>, steps: seq<Step>, i: nat, cell: Cell)
    requires IsRun(states, steps) && i < |states|
    ensures var t := At(states[i].counters, cell);
            && t.received == Receipts(states, steps, i, cell)
            && t.sent == Sendings(states, steps, i, cell)
            && t.discarded == Discards(states, steps, i, cell)
  {
    RunTallySteps(states, steps, cell);
    TalliesAdd(states, steps, i, cell);
  }
}
