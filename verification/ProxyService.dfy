/** Which peers are in service, on which sockets, and which queues there are: in every run it
    follows from the coming and going of the peers and the failed sendings. */
module ProxyService {
  import opened Octets
  import opened Codec
  import opened Pending
  import opened Proxy
  import opened ProxySteps
  import opened ProxyThreads

  // ---------------------------------------------------------------------- the events

  /** The peer goes, or a message for it, a server, could not be sent. */
  predicate Goes(s: State, step: Step, p: Peer)
  {
    || step == Down(p)
    || (step.Send? && step.outcome == Failed && InQueueAt(s, step.sock, 0)
        && var m := s.queues[step.sock].messages[0];
           m.kind in {RequestToServer, AnswerToServer} && p == AtServer(m.connection))
  }

  /** The socket of a peer, by its last coming or going before state number `i`. */
  function SocketAfter(states: seq<State>, steps: seq<Step>, i: nat, p: Peer): (sock: Option<nat>)
    requires i <= |steps| < |states|
  {
    if i == 0 then None
    else if steps[i - 1].Up? && steps[i - 1].peer == p then Some(steps[i - 1].sock)
    else if Goes(states[i - 1], steps[i - 1], p) then None
    else SocketAfter(states, steps, i - 1, p)
  }

  /** Whose queue a socket has, by the last attachment or cleaning before state number `i`. */
  function HomeAfter(states: seq<State>, steps: seq<Step>, i: nat, k: nat): (home: Option<Peer>)
    requires i <= |steps| < |states|
  {
    if i == 0 then None
    else if AttachesAt(states, steps, i - 1, k) then Some(steps[i - 1].peer)
    else if steps[i - 1].StartClean? && steps[i - 1].sock == k then None
    else HomeAfter(states, steps, i - 1, k)
  }

  /** Whether a message of the socket is still to be popped, by the last attempt or popping. */
  predicate PoppingAfter(states: seq<State>, steps: seq<Step>, i: nat, k: nat)
    requires i <= |steps| < |states|
  {
    if i == 0 || AttachesAt(states, steps, i - 1, k) || (steps[i - 1].StartClean? && steps[i - 1].sock == k) then false
    else PoppingNext(states[i - 1], steps[i - 1], k, PoppingAfter(states, steps, i - 1, k))
  }

  predicate Serves(l: Endpoint, sock: Option<nat>)
  {
    match sock
    case None => !l.up
    case Some(k) => l == Endpoint(true, k)
  }

  /** The peer is in service on this socket, or is not if there is none. */
  predicate IsOn(s: State, p: Peer, sock: Option<nat>)
  {
    match p
    case AtClient(c) => c < |s.clients| ==> Serves(s.clients[c], sock)
    case AtServer(k) => k < |s.links| ==> Serves(s.links[k], sock)
  }

  // ------------------------------------------------------------------------ one step

  ghost predicate EndpointStep(s: State, step: Step, p: Peer, l: Endpoint, l': Endpoint)
  {
    if step.Up? && step.peer == p then l' == Endpoint(true, step.sock)
    else if Goes(s, step, p) then !l'.up
    else l' == l
  }

  ghost predicate ServiceStep(s: State, step: Step, s': State, p: Peer)
  {
    && |s'.clients| == |s.clients| && |s'.links| == |s.links|
    && match p
       case AtClient(c) => c < |s.clients| ==> EndpointStep(s, step, p, s.clients[c], s'.clients[c])
       case AtServer(k) => k < |s.links| ==> EndpointStep(s, step, p, s.links[k], s'.links[k])
  }

  predicate Attaches(s: State, step: Step, k: nat)
  {
    step.Attach? && SocketOf(s, step.peer) == Some(k)
  }

  /** A queue starts empty, and is there until it is removed. */
  ghost predicate QueueThere(s: State, step: Step, s': State, k: nat)
  {
    && |s'.queues| == |s.queues|
    && (k < |s.queues| ==>
          var q, q' := s.queues[k], s'.queues[k];
          if Attaches(s, step, k) then q' == Present([], step.peer, false)
          else if step.StartClean? && step.sock == k then q' == Absent
          else q'.Present? == q.Present?
               && (q.Present? ==> q'.home == q.home && q'.popping == PoppingNext(s, step, k, q.popping)))
  }

  /** A message that was sent or lost is still to be popped, until it is. */
  predicate PoppingNext(s: State, step: Step, k: nat, before: bool)
  {
    if step.Send? && step.sock == k && InQueueAt(s, k, 0)
    then step.outcome.Failed? || Completes(s.queues[k].messages[0], step.outcome)
    else if step.Pop? && step.sock == k then false
    else before
  }

  lemma SendServes(s: State, k: nat, o: Outcome, p: Peer, j: nat)
    requires CanDo(s, Send(k, o))
    ensures ServiceStep(s, Send(k, o), DoSend(s, k, o), p) && QueueThere(s, Send(k, o), DoSend(s, k, o), j)
  {
  }

  lemma PushServes(s: State, t: nat, p: Peer, j: nat)
    requires CanDo(s, Push(t))
    ensures ServiceStep(s, Push(t), DoPush(s, t), p) && QueueThere(s, Push(t), DoPush(s, t), j)
  {
  }

  lemma FillServes(s: State, t: nat)
    requires CanDo(s, Fill(t))
    ensures SameService(s, DoFill(s, t))
  {
  }

  lemma PeersServe(s: State, step: Step, p: Peer, j: nat)
    requires CanDo(s, step) && (step.Up? || step.Down? || step.Attach?)
    ensures ServiceStep(s, step, Do(s, step), p) && QueueThere(s, step, Do(s, step), j)
  {
  }

  lemma PopServes(s: State, step: Step, p: Peer, j: nat)
    requires CanDo(s, step) && (step.Pop? || step.StartClean?)
    ensures ServiceStep(s, step, Do(s, step), p) && QueueThere(s, step, Do(s, step), j)
  {
  }

  predicate SameService(s: State, s': State)
  {
    s'.clients == s.clients && s'.links == s.links && s'.queues == s.queues
  }

  lemma HandlingServes(s: State, step: Step)
    requires CanDo(s, step) && (step.Probe? || step.Offer? || step.Size? || step.ReleaseSlot? || step.CountDiscard?)
    ensures SameService(s, Do(s, step))
  {
  }

  lemma ReceivingServes(s: State, step: Step)
    requires CanDo(s, step) && (step.ClientRequest? || step.ServerRequest? || step.ServerAnswer? || step.ClientAnswer?)
    ensures SameService(s, Do(s, step))
  {
  }

  lemma OthersServe(s: State, step: Step)
    requires CanDo(s, step) && (step.CerLookup? || step.CerCommit? || step.Sweep? || step.Abandon?)
    ensures SameService(s, Do(s, step))
  {
  }

  lemma SameServes(s: State, step: Step, s': State, p: Peer, k: nat)
    requires SameService(s, s') && !step.Up? && !step.Down? && !step.Attach?
    requires !step.Send? && !step.Pop? && !step.StartClean?
    ensures ServiceStep(s, step, s', p) && QueueThere(s, step, s', k)
  {
  }

  lemma StepServes(s: State, step: Step, p: Peer, k: nat)
    requires CanDo(s, step)
    ensures ServiceStep(s, step, Do(s, step), p) && QueueThere(s, step, Do(s, step), k)
  {
    if step.Send? {
      SendServes(s, step.sock, step.outcome, p, k);
    } else if step.Push? {
      PushServes(s, step.t, p, k);
    } else if step.Up? || step.Down? || step.Attach? {
      PeersServe(s, step, p, k);
    } else if step.Pop? || step.StartClean? {
      PopServes(s, step, p, k);
    } else {
      if step.Fill? {
        FillServes(s, step.t);
      } else if IsHandling(step) {
        HandlingServes(s, step);
      } else if step.ClientRequest? || step.ServerRequest? || step.ServerAnswer? || step.ClientAnswer? {
        ReceivingServes(s, step);
      } else {
        OthersServe(s, step);
      }
      SameServes(s, step, Do(s, step), p, k);
    }
  }

  // ------------------------------------------------------------------------ all runs

  ghost predicate AllServe(states: seq<State>, steps: seq<Step>, p: Peer)
    requires |states| == |steps| + 1
  {
    && IsOn(states[0], p, None)
    && forall n :: 0 <= n < |steps| ==> ServiceStep(states[n], steps[n], states[n + 1], p)
  }

  lemma RunServes(states: seq<State>, steps: seq<Step>, p: Peer)
    requires IsRun(states, steps)
    ensures AllServe(states, steps, p)
  {
    forall n | 0 <= n < |steps| ensures ServiceStep(states[n], steps[n], states[n + 1], p) {
      StepServes(states[n], steps[n], p, 0);
    }
  }

  lemma {:induction false} ServiceAt(states: seq<State>, steps: seq<Step>, i: nat, p: Peer)
    requires |states| == |steps| + 1 && i < |states| && AllServe(states, steps, p)
    ensures IsOn(states[i], p, SocketAfter(states, steps, i, p))
    decreases i
  {
    if i > 0 {
      ServiceAt(states, steps, i - 1, p);
      assert ServiceStep(states[i - 1], steps[i - 1], states[i - 1 + 1], p);
    }
  }

  /** In every run a peer is in service exactly if its last coming was followed by no going, and
      it has the socket it came with. */
  lemma InServiceExactly(states: seq<State>, steps: seq<Step>, i: nat, p: Peer)
    requires IsRun(states, steps) && i < |states|
    ensures IsOn(states[i], p, SocketAfter(states, steps, i, p))
  {
    RunServes(states, steps, p);
    ServiceAt(states, steps, i, p);
  }

  /** The step gives the socket a queue, by what happened before. */
  predicate AttachesAt(states: seq<State>, steps: seq<Step>, n: nat, k: nat)
    requires n < |steps| < |states|
  {
    steps[n].Attach? && SocketAfter(states, steps, n, steps[n].peer) == Some(k)
  }

  ghost predicate QueuesThere(states: seq<State>, steps: seq<Step>, k: nat)
    requires |states| == |steps| + 1
  {
    && (k < |states[0].queues| ==> states[0].queues[k] == Absent)
    && (forall n :: 0 <= n < |steps| ==> QueueThere(states[n], steps[n], states[n + 1], k))
    && (forall n :: 0 <= n < |steps| ==> (Attaches(states[n], steps[n], k) <==> AttachesAt(states, steps, n, k)))
  }

  lemma AttachedAt(states: seq<State>, steps: seq<Step>, n: nat, k: nat)
    requires IsRun(states, steps) && n < |steps|
    ensures Attaches(states[n], steps[n], k) <==> AttachesAt(states, steps, n, k)
  {
    if steps[n].Attach? {
      InServiceExactly(states, steps, n, steps[n].peer);
    }
  }

  lemma RunQueues(states: seq<State>, steps: seq<Step>, k: nat)
    requires IsRun(states, steps)
    ensures QueuesThere(states, steps, k)
  {
    forall n | 0 <= n < |steps| ensures QueueThere(states[n], steps[n], states[n + 1], k) {
      StepServes(states[n], steps[n], AtClient(0), k);
    }
    forall n | 0 <= n < |steps| ensures Attaches(states[n], steps[n], k) <==> AttachesAt(states, steps, n, k) {
      AttachedAt(states, steps, n, k);
    }
  }

  lemma {:induction false} QueueAt(states: seq<State>, steps: seq<Step>, i: nat, k: nat)
    requires |states| == |steps| + 1 && i < |states| && QueuesThere(states, steps, k) && k < |states[i].queues|
    ensures var home := HomeAfter(states, steps, i, k);
            && (states[i].queues[k].Present? <==> home.Some?)
            && (home.Some? ==> states[i].queues[k].home == home.value
                               && states[i].queues[k].popping == PoppingAfter(states, steps, i, k))
    decreases i
  {
    if i > 0 {
      assert QueueThere(states[i - 1], steps[i - 1], states[i - 1 + 1], k);
      QueueAt(states, steps, i - 1, k);
    }
  }

  /** In every run a socket has a queue exactly if the last attachment was followed by no
      cleaning. It is that of the peer it was attached for, and its length counts one message more
      between an attempt that sends or loses one and the popping. */
  lemma QueueExactly(states: seq<State>, steps: seq<Step>, i: nat, k: nat)
    requires IsRun(states, steps) && i < |states| && k < |states[i].queues|
    ensures var home := HomeAfter(states, steps, i, k);
            && (states[i].queues[k].Present? <==> home.Some?)
            && (home.Some? ==> states[i].queues[k].home == home.value
                               && states[i].queues[k].popping == PoppingAfter(states, steps, i, k))
  {
    RunQueues(states, steps, k);
    QueueAt(states, steps, i, k);
  }

  /** It starts empty. */
  lemma QueueStartsEmpty(states: seq<State>, steps: seq<Step>, n: nat, k: nat)
    requires IsRun(states, steps) && n < |steps| && AttachesAt(states, steps, n, k) && k < |states[n].queues|
    ensures k < |states[n + 1].queues| && states[n + 1].queues[k] == Present([], steps[n].peer, false)
  {
    AttachedAt(states, steps, n, k);
    StepServes(states[n], steps[n], AtClient(0), k);
  }
}
