/** Where the requests in the ledger come from: each of them was received in some step of the
    run, from the peer and with the octets the ledger says. */
module ProxyOrigins {
  import opened Octets
  import opened Codec
  import opened Pending
  import opened Proxy
  import opened ProxyInvariant
  import opened ProxySteps
  import opened ProxyThreads
  import opened ProxyTheorems

  function TaskOf(r: Request): (task: Task)
  {
    Task(r.kind, r.connection, r.client, r.bytes)
  }

  function Pursued(pc: Pc): (task: Option<Task>)
  {
    if pc.Searching? || pc.Filling? then Some(pc.task) else None
  }

  /** The request whose handling a step starts. */
  function Started(s: State, step: Step): (task: Option<Task>)
  {
    match step
    case ClientRequest(t, c, k, bytes) => Some(Task(RequestToServer, k, c, bytes))
    case ServerRequest(t, k, bytes, pick) =>
      if !WellFormed(bytes, HEADER_LENGTH) || Route(s.session, bytes, pick) < 0 then None
      else Some(Task(RequestToClient, k, Route(s.session, bytes, pick), bytes))
    case _ => None
  }

  // ---------------------------------------------------------------------- one step

  /** No thread pursues a request but one that it pursued before or that the step starts; the
      ledger keeps what it holds, and what is new in it was pursued by a thread. */
  ghost predicate Derived(s: State, step: Step, s': State)
  {
    && (forall u :: 0 <= u < |s'.threads| && Pursued(s'.threads[u]).Some? ==>
          (u < |s.threads| && Pursued(s'.threads[u]) == Pursued(s.threads[u]))
          || Pursued(s'.threads[u]) == Started(s, step))
    && |s.ledger| <= |s'.ledger|
    && (forall r :: 0 <= r < |s.ledger| ==> TaskOf(s'.ledger[r]) == TaskOf(s.ledger[r]))
    && (forall r :: |s.ledger| <= r < |s'.ledger| ==>
          exists u :: 0 <= u < |s.threads| && Pursued(s.threads[u]) == Some(TaskOf(s'.ledger[r])))
  }

  lemma ProbeDerived(s: State, t: nat)
    requires t < |s.threads| && s.threads[t].Searching? && s.cursor < |s.slots|
    ensures Derived(s, Probe(t), DoProbe(s, t))
  {
    assert Pursued(s.threads[t]) == Some(s.threads[t].task);
  }

  lemma FillDerived(s: State, t: nat)
    requires CanDo(s, Fill(t))
    ensures Derived(s, Fill(t), DoFill(s, t))
  {
  }

  lemma PushDerived(s: State, t: nat)
    requires CanDo(s, Push(t))
    ensures Derived(s, Push(t), DoPush(s, t))
  {
  }

  lemma HandlingDerived(s: State, step: Step)
    requires CanDo(s, step) && IsHandling(step)
    ensures Derived(s, step, Do(s, step))
  {
    if step.Probe? {
      ProbeDerived(s, step.t);
    } else if step.Fill? {
      FillDerived(s, step.t);
    } else if step.Push? {
      PushDerived(s, step.t);
    }
  }

  lemma SendDerived(s: State, k: nat, o: Outcome)
    requires CanDo(s, Send(k, o))
    ensures Derived(s, Send(k, o), DoSend(s, k, o))
  {
  }

  lemma StartCleanDerived(s: State, t: nat, k: nat)
    requires t < |s.threads| && k < |s.queues| && s.queues[k].Present?
    ensures Derived(s, StartClean(t, k), DoStartClean(s, t, k))
  {
  }

  lemma SweepDerived(s: State, t: nat)
    requires t < |s.threads| && s.threads[t].Sweeping? && s.threads[t].messages != []
    ensures Derived(s, Sweep(t), DoSweep(s, t))
  {
  }

  lemma PeersDerived(s: State, step: Step)
    requires CanDo(s, step) && (step.Pop? || step.Abandon? || step.Up? || step.Down? || step.Attach?)
    ensures Derived(s, step, Do(s, step))
  {
    assert Do(s, step).threads == s.threads;
  }

  lemma ServiceDerived(s: State, step: Step)
    requires CanDo(s, step) && IsService(step)
    ensures Derived(s, step, Do(s, step))
  {
    if step.Send? {
      SendDerived(s, step.sock, step.outcome);
    } else if step.StartClean? {
      StartCleanDerived(s, step.t, step.sock);
    } else if step.Sweep? {
      SweepDerived(s, step.t);
    } else {
      PeersDerived(s, step);
    }
  }

  lemma AnswerDerived(s: State, step: Step)
    requires CanDo(s, step) && (step.ServerAnswer? || step.ClientAnswer?)
    ensures Derived(s, step, Do(s, step))
  {
  }

  lemma ReceivingDerived(s: State, step: Step)
    requires CanDo(s, step) && (Starts(step) || step.CerLookup? || step.CerCommit?)
    ensures Derived(s, step, Do(s, step))
  {
  }

  lemma StepDerived(s: State, step: Step)
    requires CanDo(s, step)
    ensures Derived(s, step, Do(s, step))
  {
    if IsHandling(step) {
      HandlingDerived(s, step);
    } else if IsService(step) {
      ServiceDerived(s, step);
    } else if step.ServerAnswer? || step.ClientAnswer? {
      AnswerDerived(s, step);
    } else {
      ReceivingDerived(s, step);
    }
  }

  // ----------------------------------------------------------------------- all runs

  /** Some step before the state with number `i` started the handling of this request. */
  ghost predicate Received(states: seq<State>, steps: seq<Step>, i: nat, task: Task)
    requires |states| == |steps| + 1 && i < |states|
  {
    exists n :: 0 <= n < i && Started(states[n], steps[n]) == Some(task)
  }

  ghost predicate AllReceived(states: seq<State>, steps: seq<Step>, i: nat)
    requires |states| == |steps| + 1 && i < |states|
  {
    && (forall u :: 0 <= u < |states[i].threads| && Pursued(states[i].threads[u]).Some? ==>
          Received(states, steps, i, Pursued(states[i].threads[u]).value))
    && (forall r :: 0 <= r < |states[i].ledger| ==> Received(states, steps, i, TaskOf(states[i].ledger[r])))
  }

  ghost predicate AllDerived(states: seq<State>, steps: seq<Step>)
    requires |states| == |steps| + 1
  {
    && states[0].ledger == [] && (forall t :: 0 <= t < |states[0].threads| ==> states[0].threads[t] == Idle)
    && (forall n :: 0 <= n < |steps| ==> Derived(states[n], steps[n], states[n + 1]))
  }

  lemma RunDerived(states: seq<State>, steps: seq<Step>)
    requires IsRun(states, steps)
    ensures AllDerived(states, steps)
  {
    forall n | 0 <= n < |steps| ensures Derived(states[n], steps[n], states[n + 1]) {
      StepDerived(states[n], steps[n]);
    }
  }

  lemma StillReceived(states: seq<State>, steps: seq<Step>, i: nat, task: Task)
    requires |states| == |steps| + 1 && i < |steps|
    requires Received(states, steps, i, task) || Started(states[i], steps[i]) == Some(task)
    ensures Received(states, steps, i + 1, task)
  {
    if Received(states, steps, i, task) {
      var n :| 0 <= n < i && Started(states[n], steps[n]) == Some(task);
      assert 0 <= n < i + 1;
    }
  }

  lemma {:induction false} EachReceived(states: seq<State>, steps: seq<Step>, i: nat)
    requires |states| == |steps| + 1 && i < |states| && AllDerived(states, steps)
    ensures AllReceived(states, steps, i)
    decreases i
  {
    if i > 0 {
      EachReceived(states, steps, i - 1);
      var s, step, s' := states[i - 1], steps[i - 1], states[i];
      assert Derived(s, step, states[i - 1 + 1]);
      forall u | 0 <= u < |s'.threads| && Pursued(s'.threads[u]).Some?
        ensures Received(states, steps, i, Pursued(s'.threads[u]).value)
      {
        StillReceived(states, steps, i - 1, Pursued(s'.threads[u]).value);
      }
      forall r | 0 <= r < |s'.ledger| ensures Received(states, steps, i, TaskOf(s'.ledger[r])) {
        if r >= |s.ledger| {
          var u :| 0 <= u < |s.threads| && Pursued(s.threads[u]) == Some(TaskOf(s'.ledger[r]));
          assert Received(states, steps, i - 1, Pursued(s.threads[u]).value);
        }
        StillReceived(states, steps, i - 1, TaskOf(s'.ledger[r]));
      }
    }
  }

  /** In every run, every request of the ledger was received in an earlier step. */
  lemma RequestReceived(states: seq<State>, steps: seq<Step>, i: nat, r: nat)
    requires IsRun(states, steps) && i < |states| && r < |states[i].ledger|
    ensures Received(states, steps, i, TaskOf(states[i].ledger[r]))
  {
    RunDerived(states, steps);
    EachReceived(states, steps, i);
  }

  /** What a request of the ledger is never changes. */
  lemma {:induction false} TaskStays(states: seq<State>, steps: seq<Step>, l: nat, i: nat, r: nat)
    requires |states| == |steps| + 1 && l <= i < |states| && AllDerived(states, steps) && r < |states[l].ledger|
    ensures r < |states[i].ledger| && TaskOf(states[i].ledger[r]) == TaskOf(states[l].ledger[r])
    decreases i
  {
    if l < i {
      TaskStays(states, steps, l, i - 1, r);
      assert Derived(states[i - 1], steps[i - 1], states[i - 1 + 1]);
    }
  }

  /** An exchange: the request one step received was answered in a later one, under the
      identifier it had been sent with, and the message is that answer with the identifiers
      the request had when it arrived. */
  ghost predicate Exchange(states: seq<State>, steps: seq<Step>, n: nat, l: nat, m: Message)
    requires |states| == |steps| + 1 && n < l < |steps|
  {
    var request, answer := steps[n], steps[l];
    && (request.ClientRequest? || request.ServerRequest?) && (answer.ServerAnswer? || answer.ClientAnswer?)
    && answer.request < |states[l].ledger|
    && Started(states[n], request) == Some(TaskOf(states[l].ledger[answer.request]))
    && FairAnswer(states[l], answer.request, states[l].ledger[answer.request].kind, answer.bytes)
    && |request.bytes| >= HEADER_LENGTH
    && m.bytes == WithIds(answer.bytes, HopByHop(request.bytes), EndToEnd(request.bytes))
  }

  /** Routing of answers from the first step to the last: an answer waiting for a client waits
      for the one that sent the request in an earlier step, which a server answered since. */
  lemma AnswerReachesSender(states: seq<State>, steps: seq<Step>, i: nat, k: nat, j: nat)
    requires IsRun(states, steps) && i < |states| && InQueueAt(states[i], k, j)
    requires states[i].queues[k].messages[j].kind == AnswerToClient
    ensures exists n: nat, l: nat ::
              && n < l < i && Exchange(states, steps, n, l, states[i].queues[k].messages[j])
              && steps[n].ClientRequest? && steps[l].ServerAnswer?
              && states[i].queues[k].home == AtClient(steps[n].client)
  {
    AnswersReachTheirClient(states, steps, i, k, j);
    var m := states[i].queues[k].messages[j];
    var r := states[i].ledger[m.note.request];
    var l :| 0 <= l < i && steps[l].ServerAnswer? && IsAnswerWith(m, states[l], steps[l], r);
    var n := Exchanged(states, steps, i, l, m, r);
  }

  /** And an answer waiting for a server waits on the connection that sent the request. */
  lemma AnswerReachesServer(states: seq<State>, steps: seq<Step>, i: nat, k: nat, j: nat)
    requires IsRun(states, steps) && i < |states| && InQueueAt(states[i], k, j)
    requires states[i].queues[k].messages[j].kind == AnswerToServer
    ensures exists n: nat, l: nat ::
              && n < l < i && Exchange(states, steps, n, l, states[i].queues[k].messages[j])
              && steps[n].ServerRequest? && steps[l].ClientAnswer?
              && states[i].queues[k].home == AtServer(steps[n].connection)
  {
    AnswersReachTheirServer(states, steps, i, k, j);
    var m := states[i].queues[k].messages[j];
    var r := states[i].ledger[m.note.request];
    var l :| 0 <= l < i && steps[l].ClientAnswer? && IsAnswerWith(m, states[l], steps[l], r);
    var n := Exchanged(states, steps, i, l, m, r);
  }

  lemma Exchanged(states: seq<State>, steps: seq<Step>, i: nat, l: nat, m: Message, r: Request) returns (n: nat)
    requires IsRun(states, steps) && l < i < |states| && m.note.request < |states[i].ledger|
    requires r == states[i].ledger[m.note.request] && IsAnswerWith(m, states[l], steps[l], r) && IsRequest(r.kind)
    ensures n < l && Exchange(states, steps, n, l, m)
    ensures Started(states[n], steps[n]) == Some(TaskOf(r))
  {
    RunDerived(states, steps);
    TaskStays(states, steps, l, i, m.note.request);
    RequestReceived(states, steps, l, m.note.request);
    n :| 0 <= n < l && Started(states[n], steps[n]) == Some(TaskOf(states[l].ledger[m.note.request]));
  }
}
