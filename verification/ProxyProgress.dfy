/** What becomes of a message: in every run, when the thread that took it up is idle again, it
    has put the message into the queue of the peer it is for, or there was a reason not to: no
    free record, the peer not in service, or its queue too long. */
module ProxyProgress {
  import opened Octets
  import opened Codec
  import opened Pending
  import opened Proxy
  import opened ProxyInvariant
  import opened ProxySteps
  import opened ProxyThreads
  import EndToEndIds

  // -------------------------------------------------------------------- conditions

  /** What a thread is to bring into a queue: a request it received, or an answer with these
      octets for this client or this connection. */
  datatype Item =
    | Passing(task: Task)
    | ForClient(client: nat, bytes: seq<Byte>)
    | ForServer(connection: nat, bytes: seq<Byte>)

  /** The message is for this: the request with other identifiers, or the answer. */
  predicate Fits(m: Message, item: Item)
  {
    match item
    case Passing(task) =>
      && m.kind == task.kind && m.connection == task.connection && m.note.client == task.client
      && |m.bytes| == |task.bytes|
      && forall x :: 0 <= x < |m.bytes| && !(12 <= x < 20) ==> m.bytes[x] == task.bytes[x]
    case ForClient(client, bytes) => m.kind == AnswerToClient && m.note.client == client && m.bytes == bytes
    case ForServer(connection, bytes) =>
      m.kind == AnswerToServer && m.connection == connection && m.bytes == bytes
  }

  predicate ToServer(m: Message)
  {
    m.kind == RequestToServer || m.kind == AnswerToServer
  }

  /** The peer a message is for is in service, `sock` is its socket, and there is a queue. */
  predicate InService(s: State, m: Message, sock: nat)
  {
    && sock < |s.queues| && s.queues[sock].Present?
    && if ToServer(m)
       then m.connection < |s.links| && s.links[m.connection].up && s.links[m.connection].sock == sock
       else 0 <= m.note.client < |s.clients| && s.clients[m.note.client].up && s.clients[m.note.client].sock == sock
  }

  /** The queue holds no more messages than the maximum. */
  predicate Short(s: State, sock: nat)
  {
    && sock < |s.queues| && s.queues[sock].Present?
    && |s.queues[sock].messages| + (if s.queues[sock].popping then 1 else 0) <= s.config.maxQueue
  }

  // ---------------------------------------------------------------------- one step

  predicate Mine(step: Step, t: nat)
  {
    IsHandling(step) && step.t == t
  }

  predicate Rejected(pc: Pc, w: Work)
  {
    pc == Closing(CellOf(w.message), true, Some(Hold(w.slot, w.message.note.request)))
  }

  /** How a thread in the middle of something goes on, from what it finds. */
  ghost predicate Evolves(s: State, step: Step, s': State, t: nat)
  {
    InMidst(s, t) ==>
      && t < |s'.threads|
      && var pc, pc' := s.threads[t], s'.threads[t];
         if !Mine(step, t) then pc' == pc
         else match pc
           case Searching(task, probes) =>
             && step == Probe(t) && s.cursor < |s.slots|
             && pc' == (if !s.slots[s.cursor].used then Filling(task, s.cursor, |s.ledger|)
                        else if probes >= |s.slots| then Closing(Cell(task.connection, task.kind), true, None)
                        else Searching(task, probes + 1))
           case Filling(task, _, _) => pc'.Offering? && Fits(pc'.work.message, Passing(task))
           case Offering(w) =>
             && step == Offer(t)
             && ((exists sock :: InService(s, w.message, sock) && pc' == Sizing(w, sock))
                 || ((forall sock :: !InService(s, w.message, sock)) && Rejected(pc', w)))
           case Sizing(w, sock) =>
             step == Size(t) && if Short(s, sock) then pc' == Pushing(w, sock) else Rejected(pc', w)
           case Pushing(w, sock) =>
             && step == Push(t) && sock < |s.queues| == |s'.queues|
             && s.queues[sock].Present? && s'.queues[sock].Present?
             && s'.queues[sock].messages == s.queues[sock].messages + [w.message]
             && (pc' == Idle || pc'.Closing?)
           case _ => pc' == Idle || pc'.Closing?
  }

  lemma ProbeEvolves(s: State, t: nat)
    requires t < |s.threads| && s.threads[t].Searching? && s.cursor < |s.slots|
    ensures Evolves(s, Probe(t), DoProbe(s, t), t)
  {
  }

  lemma FillEvolves(s: State, t: nat)
    requires CanDo(s, Fill(t)) && TaskOk(s.threads[t].task)
    ensures Evolves(s, Fill(t), DoFill(s, t), t)
  {
    var task, i := s.threads[t].task, s.threads[t].slot;
    var m := DoFill(s, t).threads[t].work.message;
    FilledOctets(task, m.bytes, i + 1, EndToEndIds.Generate(task.client, s.config.seed, s.counts[t]));
    assert Fits(m, Passing(task));
  }

  lemma FilledOctets(task: Task, wire: seq<Byte>, hop: Word, end: Word)
    requires |task.bytes| >= HEADER_LENGTH
    requires wire == if task.kind == RequestToServer then WithIds(task.bytes, hop, end)
                     else WithHopByHop(task.bytes, hop)
    ensures |wire| == |task.bytes|
    ensures forall x :: 0 <= x < |wire| && !(12 <= x < 20) ==> wire[x] == task.bytes[x]
  {
    IdsReplaced(task.bytes, hop, end);
  }

  lemma OfferEvolves(s: State, t: nat)
    requires t < |s.threads| && s.threads[t].Offering?
    ensures Evolves(s, Offer(t), DoOffer(s, t), t)
  {
    var w, pc' := s.threads[t].work, DoOffer(s, t).threads[t];
    if pc'.Sizing? {
      assert InService(s, w.message, pc'.sock);
    }
  }

  lemma SizeEvolves(s: State, t: nat)
    requires CanDo(s, Size(t))
    ensures Evolves(s, Size(t), DoSize(s, t), t)
  {
  }

  lemma PushEvolves(s: State, t: nat)
    requires CanDo(s, Push(t))
    ensures Evolves(s, Push(t), DoPush(s, t), t)
  {
  }

  lemma ClosingEvolves(s: State, step: Step, t: nat)
    requires CanDo(s, step) && (step == CountDiscard(t) || step == ReleaseSlot(t))
    ensures Evolves(s, step, Do(s, step), t)
  {
  }

  lemma OthersEvolve(s: State, step: Step, t: nat)
    requires CanDo(s, step) && !Mine(step, t)
    ensures Evolves(s, step, Do(s, step), t)
  {
    if InMidst(s, t) {
      Elsewhere(s, step, t);
    }
  }

  lemma StepEvolves(s: State, step: Step, t: nat)
    requires Inv(s) && CanDo(s, step)
    ensures Evolves(s, step, Do(s, step), t)
  {
    if !Mine(step, t) {
      OthersEvolve(s, step, t);
    } else if step.Probe? {
      ProbeEvolves(s, t);
    } else if step.Fill? {
      assert ThreadOk(t, s.threads[t], s.ledger, |s.slots|);
      FillEvolves(s, t);
    } else if step.Offer? {
      OfferEvolves(s, t);
    } else if step.Size? {
      SizeEvolves(s, t);
    } else if step.Push? {
      PushEvolves(s, t);
    } else {
      ClosingEvolves(s, step, t);
    }
  }

  // ----------------------------------------------------------------------- all runs

  /** The thread is bringing this into a queue. */
  predicate OnItsWay(pc: Pc, item: Item)
  {
    match pc
    case Searching(task, _) => item == Passing(task)
    case Filling(task, _, _) => item == Passing(task)
    case Offering(w) => Fits(w.message, item)
    case Sizing(w, _) => Fits(w.message, item)
    case Pushing(w, _) => Fits(w.message, item)
    case _ => false
  }

  /** The step puts the message into a queue that was found short, at its end. */
  ghost predicate Accepts(s: State, step: Step, s': State, t: nat, item: Item)
  {
    && step == Push(t) && t < |s.threads| && s.threads[t].Pushing?
    && var m, sock := s.threads[t].work.message, s.threads[t].sock;
       && Fits(m, item) && (ToServer(m) || m.note.client >= 0)
       && sock < |s.queues| == |s'.queues| && s.queues[sock].Present? && s'.queues[sock].Present?
       && s.queues[sock].home == (if ToServer(m) then AtServer(m.connection) else AtClient(m.note.client))
       && s'.queues[sock].messages == s.queues[sock].messages + [m]
  }

  /** The reasons not to. */
  ghost predicate Refuses(s: State, step: Step, t: nat, item: Item)
  {
    && t < |s.threads|
    && var pc := s.threads[t];
       || (step == Probe(t) && pc.Searching? && item == Passing(pc.task) && s.cursor < |s.slots|
           && s.slots[s.cursor].used && pc.probes >= |s.slots|)
       || (step == Offer(t) && pc.Offering? && Fits(pc.work.message, item)
           && forall sock :: !InService(s, pc.work.message, sock))
       || (step == Size(t) && pc.Sizing? && Fits(pc.work.message, item) && !Short(s, pc.sock))
  }

  ghost predicate DecidedAt(states: seq<State>, steps: seq<Step>, l: nat, t: nat, item: Item)
    requires l < |steps| < |states|
  {
    Accepts(states[l], steps[l], states[l + 1], t, item) || Refuses(states[l], steps[l], t, item)
  }

  ghost predicate AllEvolve(states: seq<State>, steps: seq<Step>, t: nat)
    requires |states| == |steps| + 1
  {
    && (forall n :: 0 <= n < |steps| ==> Evolves(states[n], steps[n], states[n + 1], t))
    && (forall n :: 0 <= n < |states| ==> AtHome(states[n], t))
  }

  /** A message about to be pushed is for the peer whose queue it is. */
  ghost predicate AtHome(s: State, t: nat)
  {
    t < |s.threads| && s.threads[t].Pushing? ==>
      s.threads[t].sock < |s.queues| && s.queues[s.threads[t].sock].Present?
      && Destination(s.threads[t].work.message) == Some(s.queues[s.threads[t].sock].home)
  }

  lemma RunEvolves(states: seq<State>, steps: seq<Step>, t: nat)
    requires IsRun(states, steps)
    ensures AllEvolve(states, steps, t)
  {
    forall n | 0 <= n < |steps| ensures Evolves(states[n], steps[n], states[n + 1], t) {
      RunKeeps(states, steps, n);
      StepEvolves(states[n], steps[n], t);
    }
    forall n | 0 <= n < |states| ensures AtHome(states[n], t) {
      RunKeeps(states, steps, n);
    }
  }

  /** The thread has been busy since the state number `n`. */
  ghost predicate Busy(states: seq<State>, n: nat, i: nat, t: nat)
  {
    n <= i < |states| && forall l :: n <= l <= i ==> t < |states[l].threads| && states[l].threads[t] != Idle
  }

  /** One step of a message on its way: it stays so, or is decided. */
  lemma WayStep(s: State, step: Step, s': State, t: nat, item: Item)
    requires Evolves(s, step, s', t) && AtHome(s, t) && t < |s.threads| && OnItsWay(s.threads[t], item)
    ensures t < |s'.threads|
    ensures OnItsWay(s'.threads[t], item)
            || ((s'.threads[t] == Idle || s'.threads[t].Closing?)
                && (Accepts(s, step, s', t, item) || Refuses(s, step, t, item)))
  {
  }

  lemma {:induction false} BusyDecides(states: seq<State>, steps: seq<Step>, n: nat, i: nat, t: nat, item: Item)
    returns (l: nat)
    requires |states| == |steps| + 1 && AllEvolve(states, steps, t) && n < i < |states| && Busy(states, n, i - 1, t)
    requires OnItsWay(states[n].threads[t], item)
    ensures t < |states[i].threads|
    ensures OnItsWay(states[i].threads[t], item)
            || ((states[i].threads[t] == Idle || states[i].threads[t].Closing?)
                && n <= l < i && DecidedAt(states, steps, l, t, item))
    decreases i
  {
    l := i - 1;
    assert Evolves(states[i - 1], steps[i - 1], states[i - 1 + 1], t) && AtHome(states[i - 1], t);
    if n == i - 1 {
      WayStep(states[n], steps[n], states[n + 1], t, item);
    } else {
      var before := BusyDecides(states, steps, n, i - 1, t, item);
      if OnItsWay(states[i - 1].threads[t], item) {
        WayStep(states[i - 1], steps[i - 1], states[i - 1 + 1], t, item);
      } else {
        l := before;
        assert states[i - 1].threads[t] != Idle;
      }
    }
  }

  /** The fate of a message. From the state in which a thread has taken it up to the one in which
      the thread is idle again, it was put into the queue of its peer, or refused for one of the
      three reasons. */
  lemma Fate(states: seq<State>, steps: seq<Step>, n: nat, i: nat, t: nat, item: Item) returns (l: nat)
    requires IsRun(states, steps) && n < i < |states| && Busy(states, n, i - 1, t) && IsIdle(states[i], t)
    requires OnItsWay(states[n].threads[t], item)
    ensures n <= l < i && DecidedAt(states, steps, l, t, item)
  {
    RunEvolves(states, steps, t);
    l := BusyDecides(states, steps, n, i, t, item);
  }

  /** A request of a client: it is put into the queue of its server with the octets received
      outside the identifiers, or refused. */
  lemma FateOfClientRequest(states: seq<State>, steps: seq<Step>, n: nat, i: nat)
    requires IsRun(states, steps) && n < |steps| && steps[n].ClientRequest? && n + 1 < i < |states|
    requires Busy(states, n + 1, i - 1, steps[n].t) && IsIdle(states[i], steps[n].t)
    ensures var r := steps[n];
            exists l :: n < l < i
              && DecidedAt(states, steps, l, r.t, Passing(Task(RequestToServer, r.connection, r.client, r.bytes)))
  {
    var r := steps[n];
    TakenUp(states[n], r);
    var l := Fate(states, steps, n + 1, i, r.t, Passing(Task(RequestToServer, r.connection, r.client, r.bytes)));
  }

  lemma TakenUp(s: State, step: Step)
    requires CanDo(s, step) && step.ClientRequest?
    ensures step.t < |Do(s, step).threads|
    ensures OnItsWay(Do(s, step).threads[step.t],
                     Passing(Task(RequestToServer, step.connection, step.client, step.bytes)))
  {
  }

  /** A request of a server, for the client it was assigned to, unless it could not be assigned. */
  lemma FateOfServerRequest(states: seq<State>, steps: seq<Step>, n: nat, i: nat)
    requires IsRun(states, steps) && n < |steps| && steps[n].ServerRequest? && n + 1 < i < |states|
    requires WellFormed(steps[n].bytes, HEADER_LENGTH)
    requires Route(states[n].session, steps[n].bytes, steps[n].pick) >= 0
    requires Busy(states, n + 1, i - 1, steps[n].t) && IsIdle(states[i], steps[n].t)
    ensures var r, c := steps[n], Route(states[n].session, steps[n].bytes, steps[n].pick);
            exists l :: n < l < i
              && DecidedAt(states, steps, l, r.t, Passing(Task(RequestToClient, r.connection, c, r.bytes)))
  {
    var r, c := steps[n], Route(states[n].session, steps[n].bytes, steps[n].pick);
    var l := Fate(states, steps, n + 1, i, r.t, Passing(Task(RequestToClient, r.connection, c, r.bytes)));
  }

  /** An answer of a server to a request that waits for it: the client of the request gets it,
      with the identifiers of the request. */
  lemma FateOfServerAnswer(states: seq<State>, steps: seq<Step>, n: nat, i: nat)
    requires IsRun(states, steps) && n < |steps| && steps[n].ServerAnswer? && n + 1 < i < |states|
    requires FairAnswer(states[n], steps[n].request, RequestToServer, steps[n].bytes)
    requires Busy(states, n + 1, i - 1, steps[n].t) && IsIdle(states[i], steps[n].t)
    ensures var r := states[n].ledger[steps[n].request];
            && |r.bytes| >= HEADER_LENGTH
            && exists l :: n < l < i && DecidedAt(states, steps, l, steps[n].t,
                 ForClient(r.client, WithIds(steps[n].bytes, HopByHop(r.bytes), EndToEnd(r.bytes))))
  {
    var r := states[n].ledger[steps[n].request];
    RunKeeps(states, steps, n);
    AnswerFindsRecord(states[n], steps[n].request, RequestToServer, steps[n].bytes);
    var item := ForClient(r.client, WithIds(steps[n].bytes, HopByHop(r.bytes), EndToEnd(r.bytes)));
    ServerAnswerTakenUp(states[n], steps[n], item, r);
    var l := Fate(states, steps, n + 1, i, steps[n].t, item);
  }

  lemma ServerAnswerTakenUp(s: State, step: Step, item: Item, r: Request)
    requires CanDo(s, step) && step.ServerAnswer? && r.slot < |s.slots| && Recorded(s.slots[r.slot], r)
    requires Locate(HopByHop(step.bytes), |s.slots|) == Some(r.slot)
    requires item == ForClient(r.client, WithIds(step.bytes, HopByHop(r.bytes), EndToEnd(r.bytes)))
    ensures step.t < |Do(s, step).threads| && OnItsWay(Do(s, step).threads[step.t], item)
  {
  }

  /** An answer of a client: the connection the request came from gets it. */
  lemma FateOfClientAnswer(states: seq<State>, steps: seq<Step>, n: nat, i: nat)
    requires IsRun(states, steps) && n < |steps| && steps[n].ClientAnswer? && n + 1 < i < |states|
    requires FairAnswer(states[n], steps[n].request, RequestToClient, steps[n].bytes)
    requires Busy(states, n + 1, i - 1, steps[n].t) && IsIdle(states[i], steps[n].t)
    ensures var r := states[n].ledger[steps[n].request];
            && |r.bytes| >= HEADER_LENGTH
            && exists l :: n < l < i && DecidedAt(states, steps, l, steps[n].t,
                 ForServer(r.connection, WithIds(steps[n].bytes, HopByHop(r.bytes), EndToEnd(r.bytes))))
  {
    var r := states[n].ledger[steps[n].request];
    RunKeeps(states, steps, n);
    AnswerFindsRecord(states[n], steps[n].request, RequestToClient, steps[n].bytes);
    var item := ForServer(r.connection, WithIds(steps[n].bytes, HopByHop(r.bytes), EndToEnd(r.bytes)));
    ClientAnswerTakenUp(states[n], steps[n], item, r);
    var l := Fate(states, steps, n + 1, i, steps[n].t, item);
  }

  lemma ClientAnswerTakenUp(s: State, step: Step, item: Item, r: Request)
    requires CanDo(s, step) && step.ClientAnswer? && r.slot < |s.slots| && Recorded(s.slots[r.slot], r)
    requires r.kind == RequestToClient && Locate(HopByHop(step.bytes), |s.slots|) == Some(r.slot)
    requires item == ForServer(r.connection, WithIds(step.bytes, HopByHop(r.bytes), EndToEnd(r.bytes)))
    ensures step.t < |Do(s, step).threads| && OnItsWay(Do(s, step).threads[step.t], item)
  {
  }

  // ------------------------------------------------------------------ offer and size

  /** The next step of thread `t` after step `i` is step `j`. */
  predicate NextOwn(steps: seq<Step>, i: nat, j: nat, t: nat)
  {
    i < j < |steps| && Mine(steps[j], t) && forall n :: i < n < j ==> !Mine(steps[n], t)
  }

  lemma {:induction false} StaysUntil(states: seq<State>, steps: seq<Step>, i: nat, j: nat, t: nat)
    requires |states| == |steps| + 1 && i <= j < |states| && AllEvolve(states, steps, t)
    requires InMidst(states[i], t) && forall n :: i <= n < j ==> !Mine(steps[n], t)
    ensures t < |states[j].threads| && states[j].threads[t] == states[i].threads[t]
    decreases j
  {
    if i < j {
      StaysUntil(states, steps, i, j - 1, t);
      assert Evolves(states[j - 1], steps[j - 1], states[j - 1 + 1], t);
    }
  }

  /** A message that is offered comes to be pushed if and only if its peer was in service with a
      queue when it was offered, and that queue was no longer than the maximum when its length
      was looked at. Otherwise it is rejected. */
  lemma PushedExactly(states: seq<State>, steps: seq<Step>, i: nat, j: nat, t: nat)
    requires IsRun(states, steps) && NextOwn(steps, i, j, t) && steps[i] == Offer(t)
    ensures t < |states[i].threads| && states[i].threads[t].Offering? && t < |states[j + 1].threads|
    ensures var w := states[i].threads[t].work;
            && (steps[j] == Size(t) <==> exists sock :: InService(states[i], w.message, sock))
            && (states[j + 1].threads[t].Pushing?
                <==> exists sock :: InService(states[i], w.message, sock) && Short(states[j], sock))
            && (forall sock :: states[j + 1].threads[t] == Pushing(w, sock) ==> InService(states[i], w.message, sock))
            && (!states[j + 1].threads[t].Pushing? ==>
                  states[j + 1].threads[t] == Idle || states[j + 1].threads[t].Closing?)
  {
    RunEvolves(states, steps, t);
    assert Evolves(states[i], steps[i], states[i + 1], t);
    StaysUntil(states, steps, i + 1, j, t);
    assert Evolves(states[j], steps[j], states[j + 1], t);
    OneSocket(states[i], states[i].threads[t].work.message);
  }

  /** In every run, after a hard error in sending a message to a server its connection is out of
      service. */
  lemma FailureTakesDown(states: seq<State>, steps: seq<Step>, n: nat)
    requires IsRun(states, steps) && n < |steps| && steps[n].Send? && steps[n].outcome.Failed?
    ensures InQueueAt(states[n], steps[n].sock, 0)
    ensures var m := states[n].queues[steps[n].sock].messages[0];
            ToServer(m) && m.connection < |states[n + 1].links| ==> !states[n + 1].links[m.connection].up
  {
  }

  lemma OneSocket(s: State, m: Message)
    ensures forall a, b :: InService(s, m, a) && InService(s, m, b) ==> a == b
  {
  }
}
