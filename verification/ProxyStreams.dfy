/** The octets on the sockets of a run: while a queue lives, what the `Send` steps wrote is, as
    long as nothing is dropped, a prefix of what the `Push` steps accepted. */
module ProxyStreams {
  import opened Octets
  import opened Codec
  import opened Pending
  import opened Proxy
  import opened ProxyInvariant
  import opened ProxySteps
  import opened ProxyThreads

  // ---------------------------------------------------------------------- one step

  /** What a step means to the queue of socket `k`. */
  function EventOf(s: State, step: Step, k: nat): (e: Option<LineEvent>)
  {
    if step.Send? && step.sock == k then Some(Attempt(step.outcome))
    else if step.Push? && step.t < |s.threads| && s.threads[step.t].Pushing? && s.threads[step.t].sock == k
    then Some(Accept(s.threads[step.t].work.message))
    else None
  }

  /** The octets a step writes on the socket. */
  function WrittenBy(s: State, step: Step, k: nat): (b: seq<Byte>)
  {
    if step.Send? && step.sock == k && InQueueAt(s, k, 0) && step.outcome.Wrote?
       && s.queues[k].messages[0].sent + step.outcome.n <= |s.queues[k].messages[0].bytes|
    then
      var m := s.queues[k].messages[0];
      m.bytes[m.sent..m.sent + step.outcome.n]
    else []
  }

  /** The message a step adds to the queue. */
  function AcceptedBy(s: State, step: Step, k: nat): (b: seq<seq<Byte>>)
  {
    if step.Push? && step.t < |s.threads| && s.threads[step.t].Pushing? && s.threads[step.t].sock == k
    then [s.threads[step.t].work.message.bytes]
    else []
  }

  predicate HasQueue(s: State, k: nat)
  {
    k < |s.queues| && s.queues[k].Present?
  }

  /** While there is a queue, a step does to it what its event says. */
  ghost predicate QueueStep(s: State, step: Step, s': State, k: nat)
  {
    HasQueue(s, k) && HasQueue(s', k) ==>
      var q, q' := s.queues[k].messages, s'.queues[k].messages;
      match EventOf(s, step, k)
      case None => q' == q
      case Some(Accept(m)) => q' == q + [m] && m.sent == 0 < |m.bytes|
      case Some(Attempt(o)) => q != [] && Possible(q[0], o) && q' == QueueAfter(q, o)
  }

  lemma PushSteps(s: State, t: nat, k: nat)
    requires Inv(s) && CanDo(s, Push(t))
    ensures QueueStep(s, Push(t), DoPush(s, t), k)
  {
    assert ThreadOk(t, s.threads[t], s.ledger, |s.slots|);
  }

  lemma SendSteps(s: State, sock: nat, o: Outcome, k: nat)
    requires CanDo(s, Send(sock, o))
    ensures QueueStep(s, Send(sock, o), DoSend(s, sock, o), k)
  {
  }

  lemma FillSteps(s: State, t: nat, k: nat)
    requires CanDo(s, Fill(t))
    ensures QueueStep(s, Fill(t), DoFill(s, t), k)
  {
  }

  lemma HandlingSteps(s: State, step: Step, k: nat)
    requires CanDo(s, step) && IsHandling(step) && !step.Push? && !step.Fill?
    ensures QueueStep(s, step, Do(s, step), k)
  {
  }

  lemma CleaningSteps(s: State, step: Step, k: nat)
    requires CanDo(s, step) && (step.StartClean? || step.Sweep?)
    ensures QueueStep(s, step, Do(s, step), k)
  {
  }

  lemma PeersSteps(s: State, step: Step, k: nat)
    requires CanDo(s, step) && (step.Pop? || step.Abandon? || step.Up? || step.Down? || step.Attach?)
    ensures QueueStep(s, step, Do(s, step), k)
  {
  }

  lemma ReceivingSteps(s: State, step: Step, k: nat)
    requires CanDo(s, step) && !IsHandling(step) && !IsService(step)
    ensures QueueStep(s, step, Do(s, step), k)
  {
  }

  lemma StepSteps(s: State, step: Step, k: nat)
    requires Inv(s) && CanDo(s, step)
    ensures QueueStep(s, step, Do(s, step), k)
  {
    if step.Push? {
      PushSteps(s, step.t, k);
    } else if step.Send? {
      SendSteps(s, step.sock, step.outcome, k);
    } else if step.Fill? {
      FillSteps(s, step.t, k);
    } else if IsHandling(step) {
      HandlingSteps(s, step, k);
    } else if step.StartClean? || step.Sweep? {
      CleaningSteps(s, step, k);
    } else if IsService(step) {
      PeersSteps(s, step, k);
    } else {
      ReceivingSteps(s, step, k);
    }
  }

  // ----------------------------------------------------------------------- all runs

  /** The octets written on the socket, and the messages accepted for it, from the state
      number `a` to the state number `i`. */
  function WrittenOn(states: seq<State>, steps: seq<Step>, a: nat, i: nat, k: nat): (b: seq<Byte>)
    requires a <= i <= |steps| < |states|
    decreases i
  {
    if a == i then [] else WrittenOn(states, steps, a, i - 1, k) + WrittenBy(states[i - 1], steps[i - 1], k)
  }

  function AcceptedOn(states: seq<State>, steps: seq<Step>, a: nat, i: nat, k: nat): (b: seq<seq<Byte>>)
    requires a <= i <= |steps| < |states|
    decreases i
  {
    if a == i then [] else AcceptedOn(states, steps, a, i - 1, k) + AcceptedBy(states[i - 1], steps[i - 1], k)
  }

  function EventsOn(states: seq<State>, steps: seq<Step>, a: nat, i: nat, k: nat): (events: seq<LineEvent>)
    requires a <= i <= |steps| < |states|
    decreases i
  {
    if a == i then []
    else
      var e := EventOf(states[i - 1], steps[i - 1], k);
      EventsOn(states, steps, a, i - 1, k) + (if e.Some? then [e.value] else [])
  }

  /** One life of a queue: it is there from an empty start on. */
  ghost predicate Lives(states: seq<State>, a: nat, i: nat, k: nat)
  {
    && a <= i < |states| && (forall n :: a <= n <= i ==> HasQueue(states[n], k))
    && states[a].queues[k].messages == []
  }

  ghost predicate AllQueueSteps(states: seq<State>, steps: seq<Step>, k: nat)
    requires |states| == |steps| + 1
  {
    forall n :: 0 <= n < |steps| ==> QueueStep(states[n], steps[n], states[n + 1], k)
  }

  lemma RunQueueSteps(states: seq<State>, steps: seq<Step>, k: nat)
    requires IsRun(states, steps)
    ensures AllQueueSteps(states, steps, k)
  {
    forall n | 0 <= n < |steps| ensures QueueStep(states[n], steps[n], states[n + 1], k) {
      RunKeeps(states, steps, n);
      StepSteps(states[n], steps[n], k);
    }
  }

  const NEW_LINE := Line([], [], [], [])

  /** The line of the socket after these events. */
  ghost predicate IsLine(l: Line, events: seq<LineEvent>, q: seq<Message>, written: seq<Byte>, accepted: seq<seq<Byte>>)
  {
    && Exact(NEW_LINE) && EnabledRun(NEW_LINE, events) && l == Run(NEW_LINE, events) && Exact(l)
    && l.queue == q && l.written == written && l.accepted == accepted
  }

  /** One event more. */
  lemma LineStep(l: Line, events: seq<LineEvent>, q: seq<Message>, written: seq<Byte>, accepted: seq<seq<Byte>>,
                 e: LineEvent)
    requires IsLine(l, events, q, written, accepted) && Enabled(l, e)
    ensures var l' := Apply(l, e); IsLine(l', events + [e], l'.queue, l'.written, l'.accepted)
  {
    ApplyExact(l, e);
    RunMore(NEW_LINE, events, e);
  }

  lemma {:induction false} RunMore(l: Line, events: seq<LineEvent>, e: LineEvent)
    requires Sound(l) && EnabledRun(l, events) && Sound(Run(l, events)) && Enabled(Run(l, events), e)
    requires Sound(Apply(Run(l, events), e))
    ensures EnabledRun(l, events + [e]) && Run(l, events + [e]) == Apply(Run(l, events), e)
    decreases |events|
  {
    if events == [] {
      assert events + [e] == [e] && [e][1..] == [];
    } else {
      assert (events + [e])[1..] == events[1..] + [e];
      RunMore(Apply(l, events[0]), events[1..], e);
    }
  }

  /** In one life of a queue the steps of the run are a run of the line. */
  lemma {:induction false} RunIsLine(states: seq<State>, steps: seq<Step>, a: nat, i: nat, k: nat) returns (l: Line)
    requires |states| == |steps| + 1 && AllQueueSteps(states, steps, k) && Lives(states, a, i, k)
    ensures IsLine(l, EventsOn(states, steps, a, i, k), states[i].queues[k].messages,
                   WrittenOn(states, steps, a, i, k), AcceptedOn(states, steps, a, i, k))
    decreases i
  {
    if a == i {
      l := NEW_LINE;
      assert GoneBytes([]) + QueueBytes([]) == [];
    } else {
      var n := i - 1;
      var before := RunIsLine(states, steps, a, n, k);
      assert QueueStep(states[n], steps[n], states[n + 1], k);
      l := NextLine(states, steps, a, n, k, before);
    }
  }

  /** The event does to the line what the step does to the queue and the socket. */
  lemma SameEffect(s: State, step: Step, s': State, k: nat, l: Line)
    requires HasQueue(s, k) && HasQueue(s', k) && QueueStep(s, step, s', k)
    requires Sound(l) && l.queue == s.queues[k].messages && EventOf(s, step, k).Some?
    ensures var e := EventOf(s, step, k).value;
            && Enabled(l, e) && Apply(l, e).queue == s'.queues[k].messages
            && Apply(l, e).written == l.written + WrittenBy(s, step, k)
            && Apply(l, e).accepted == l.accepted + AcceptedBy(s, step, k)
  {
    if step.Send? {
      assert l.accepted + [] == l.accepted;
    } else {
      assert l.written + [] == l.written;
    }
  }

  lemma NextLine(states: seq<State>, steps: seq<Step>, a: nat, n: nat, k: nat, before: Line) returns (l: Line)
    requires |states| == |steps| + 1 && a <= n < |steps| && HasQueue(states[n], k) && HasQueue(states[n + 1], k)
    requires QueueStep(states[n], steps[n], states[n + 1], k)
    requires IsLine(before, EventsOn(states, steps, a, n, k), states[n].queues[k].messages,
                    WrittenOn(states, steps, a, n, k), AcceptedOn(states, steps, a, n, k))
    ensures IsLine(l, EventsOn(states, steps, a, n + 1, k), states[n + 1].queues[k].messages,
                   WrittenOn(states, steps, a, n + 1, k), AcceptedOn(states, steps, a, n + 1, k))
  {
    var s, step, s' := states[n], steps[n], states[n + 1];
    var e, events := EventOf(s, step, k), EventsOn(states, steps, a, n, k);
    if e == None {
      l := before;
      NoEffect(s, step, k);
      assert before.written + [] == before.written && before.accepted + [] == before.accepted && events + [] == events;
    } else {
      SameEffect(s, step, s', k, before);
      l := Apply(before, e.value);
      LineStep(before, events, before.queue, before.written, before.accepted, e.value);
      assert EventsOn(states, steps, a, n + 1, k) == events + [e.value];
    }
  }

  lemma NoEffect(s: State, step: Step, k: nat)
    requires EventOf(s, step, k) == None
    ensures WrittenBy(s, step, k) == [] && AcceptedBy(s, step, k) == []
  {
  }

  /** Nothing is dropped on the socket between these states. */
  ghost predicate NoDrop(steps: seq<Step>, a: nat, i: nat, k: nat)
    requires i <= |steps|
  {
    forall n :: a <= n < i && steps[n].Send? && steps[n].sock == k ==> !Drops(Attempt(steps[n].outcome))
  }

  ghost predicate NoneDrops(events: seq<LineEvent>)
  {
    forall x :: 0 <= x < |events| ==> !Drops(events[x])
  }

  lemma {:induction false} NoDropEvents(states: seq<State>, steps: seq<Step>, a: nat, i: nat, k: nat)
    requires a <= i <= |steps| < |states| && NoDrop(steps, a, i, k)
    ensures NoneDrops(EventsOn(states, steps, a, i, k))
    decreases i
  {
    if a < i {
      NoDropEvents(states, steps, a, i - 1, k);
      var e := EventOf(states[i - 1], steps[i - 1], k);
      assert e.Some? ==> !Drops(e.value);
      assert EventsOn(states, steps, a, i, k)
             == EventsOn(states, steps, a, i - 1, k) + (if e.Some? then [e.value] else []);
    }
  }

  lemma LinePrefix(l: Line, events: seq<LineEvent>)
    requires IsLine(l, events, l.queue, l.written, l.accepted) && NoneDrops(events)
    ensures l.written <= Concat(l.accepted)
  {
    WrittenIsPrefix(events);
  }

  /** In every run, from any moment at which the queue of a socket is empty and for as long as
      it is there: if nothing is dropped, the octets written on the socket are a prefix of the
      messages accepted for it, put end to end. No gap, no duplicate, no change of order,
      whatever the other threads do. */
  lemma SocketCarriesPrefix(states: seq<State>, steps: seq<Step>, a: nat, i: nat, k: nat)
    requires IsRun(states, steps) && Lives(states, a, i, k) && NoDrop(steps, a, i, k)
    ensures WrittenOn(states, steps, a, i, k) <= Concat(AcceptedOn(states, steps, a, i, k))
  {
    RunQueueSteps(states, steps, k);
    var l := RunIsLine(states, steps, a, i, k);
    NoDropEvents(states, steps, a, i, k);
    LinePrefix(l, EventsOn(states, steps, a, i, k));
  }
}
