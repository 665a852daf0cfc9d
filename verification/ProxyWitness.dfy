/** The run theorems are not about nothing: whatever a client asks and a server answers, there
    is a run in which the answer ends up in the queue of the client. */
module ProxyWitness {
  import opened Octets
  import opened Codec
  import opened Pending
  import opened Proxy
  import EndToEndIds

  ghost predicate Reachable(s: State)
  {
    exists states: seq<State>, steps: seq<Step> :: IsRunTo(states, steps, s)
  }

  ghost predicate IsRunTo(states: seq<State>, steps: seq<Step>, s: State)
  {
    IsRun(states, steps) && states[|states| - 1] == s
  }

  lemma Reach(s: State, step: Step)
    requires Reachable(s) && CanDo(s, step)
    ensures Reachable(Do(s, step))
  {
    var states: seq<State>, steps: seq<Step> :| IsRunTo(states, steps, s);
    Longer(states, steps, step);
    assert IsRunTo(states + [Do(s, step)], steps + [step], Do(s, step));
  }

  lemma Longer(states: seq<State>, steps: seq<Step>, step: Step)
    requires IsRun(states, steps) && CanDo(states[|states| - 1], step)
    ensures IsRun(states + [Do(states[|states| - 1], step)], steps + [step])
  {
    var more, all := states + [Do(states[|states| - 1], step)], steps + [step];
    forall i | 0 <= i < |all| ensures CanDo(more[i], all[i]) && more[i + 1] == Do(more[i], all[i]) {
      if i < |steps| {
        assert more[i] == states[i] && all[i] == steps[i] && more[i + 1] == states[i + 1];
      }
    }
  }

  // --------------------------------------------------------------------- the stages

  /** One client on socket 0 and one server on socket 1, one thread and one record. */
  ghost predicate Stage(s: State, pc: Pc, toClient: seq<Message>, p0: bool, toServer: seq<Message>, p1: bool,
                        ledger: seq<Request>)
  {
    && s.config == Config(1, 0) && |s.slots| == 1 && s.cursor == 0 && s.ledger == ledger
    && s.threads == [pc] && |s.counts| == 1
    && s.queues == [Present(toClient, AtClient(0), p0), Present(toServer, AtServer(0), p1)]
    && s.clients == [Endpoint(true, 0)] && s.links == [Endpoint(true, 1)]
  }

  function Fresh(): (s: State)
  {
    State(Config(1, 0), [FreeSlot()], 0, [], [Idle], [0], [Absent, Absent],
          [Endpoint(false, 0)], [Endpoint(false, 0)], map[], map[])
  }

  lemma Start()
    ensures Reachable(Fresh())
  {
    assert IsRunTo([Fresh()], [], Fresh());
  }

  lemma ClientUp() returns (s: State)
    ensures Reachable(s) && s == Fresh().(clients := [Endpoint(true, 0)])
  {
    Start();
    Reach(Fresh(), Up(AtClient(0), 0));
    s := Do(Fresh(), Up(AtClient(0), 0));
  }

  lemma PeersUp() returns (s: State)
    ensures Reachable(s) && s == Fresh().(clients := [Endpoint(true, 0)], links := [Endpoint(true, 1)])
  {
    var s0 := ClientUp();
    Reach(s0, Up(AtServer(0), 1));
    s := Do(s0, Up(AtServer(0), 1));
  }

  lemma OneQueue() returns (s: State)
    ensures Reachable(s)
    ensures s == Fresh().(clients := [Endpoint(true, 0)], links := [Endpoint(true, 1)],
                          queues := [Present([], AtClient(0), false), Absent])
  {
    var s0 := PeersUp();
    Reach(s0, Attach(AtClient(0)));
    s := Do(s0, Attach(AtClient(0)));
  }

  lemma QueuesThere() returns (s: State)
    ensures Reachable(s) && Stage(s, Idle, [], false, [], false, []) && s.slots == [FreeSlot()] && s.session == map[]
  {
    var s0 := OneQueue();
    Reach(s0, Attach(AtServer(0)));
    s := Do(s0, Attach(AtServer(0)));
  }

  lemma Asked(q: seq<Byte>) returns (s: State)
    requires |q| >= HEADER_LENGTH
    ensures Reachable(s) && s.slots == [FreeSlot()]
    ensures Stage(s, Searching(Task(RequestToServer, 0, 0, q), 1), [], false, [], false, [])
  {
    var s0 := QueuesThere();
    Reach(s0, ClientRequest(0, 0, 0, q));
    s := Do(s0, ClientRequest(0, 0, 0, q));
  }

  function Taken(q: seq<Byte>, wire: seq<Byte>, phase: Phase): (r: Request)
  {
    Request(RequestToServer, 0, 0, q, 0, wire, phase)
  }

  lemma Given(q: seq<Byte>) returns (s: State)
    requires |q| >= HEADER_LENGTH
    ensures Reachable(s)
    ensures Stage(s, Filling(Task(RequestToServer, 0, 0, q), 0, 0), [], false, [], false, [Taken(q, [], Held(0))])
  {
    var s0 := Asked(q);
    Reach(s0, Probe(0));
    s := Do(s0, Probe(0));
  }

  /** The request as a message, with the number of its record. */
  predicate IsRequestFor(m: Message, q: seq<Byte>)
    requires |q| >= HEADER_LENGTH
  {
    && m.kind == RequestToServer && m.connection == 0 && m.sent == 0 && m.note.request == 0
    && |m.bytes| == |q| && HopByHop(m.bytes) == 1
  }

  lemma Filled(q: seq<Byte>) returns (s: State, m: Message)
    requires |q| >= HEADER_LENGTH
    ensures Reachable(s) && IsRequestFor(m, q)
    ensures Stage(s, Offering(Work(m, 0)), [], false, [], false, [Taken(q, m.bytes, Held(0))])
    ensures s.slots[0].client == 0 && s.slots[0].hopByHop == HopByHop(q) && s.slots[0].endToEnd == EndToEnd(q)
  {
    var s0 := Given(q);
    Reach(s0, Fill(0));
    s := Do(s0, Fill(0));
    m := s.threads[0].work.message;
    IdsReplaced(q, 1, EndToEndIds.Generate(0, 0, s0.counts[0]));
  }

  /** A message on its way into a queue of a peer in service, which is empty. */
  lemma Offered(s: State, m: Message, p0: bool, p1: bool, ledger: seq<Request>, sock: nat) returns (s': State)
    requires Reachable(s) && Stage(s, Offering(Work(m, 0)), [], p0, [], p1, ledger)
    requires Destination(m) == Some(if sock == 0 then AtClient(0) else AtServer(0)) && sock < 2
    ensures Reachable(s') && Stage(s', Sizing(Work(m, 0), sock), [], p0, [], p1, ledger) && s'.slots == s.slots
  {
    Reach(s, Offer(0));
    s' := Do(s, Offer(0));
  }

  lemma Measured(s: State, m: Message, p0: bool, p1: bool, ledger: seq<Request>, sock: nat) returns (s': State)
    requires Reachable(s) && Stage(s, Sizing(Work(m, 0), sock), [], p0, [], p1, ledger) && sock < 2
    ensures Reachable(s') && Stage(s', Pushing(Work(m, 0), sock), [], p0, [], p1, ledger) && s'.slots == s.slots
  {
    Reach(s, Size(0));
    s' := Do(s, Size(0));
  }

  lemma Queued(q: seq<Byte>) returns (s: State, m: Message)
    requires |q| >= HEADER_LENGTH
    ensures Reachable(s) && IsRequestFor(m, q)
    ensures Stage(s, Idle, [], false, [m], false, [Taken(q, m.bytes, Phase.Queued(1))])
    ensures s.slots[0].client == 0 && s.slots[0].hopByHop == HopByHop(q) && s.slots[0].endToEnd == EndToEnd(q)
  {
    var s0;
    s0, m := Filled(q);
    var ledger := [Taken(q, m.bytes, Held(0))];
    var s1 := Offered(s0, m, false, false, ledger, 1);
    var s2 := Measured(s1, m, false, false, ledger, 1);
    s := Pushed(s2, m, ledger);
  }

  lemma Pushed(s: State, m: Message, ledger: seq<Request>) returns (s': State)
    requires Reachable(s) && Stage(s, Pushing(Work(m, 0), 1), [], false, [], false, ledger)
    requires m.kind == RequestToServer && m.note.request == 0 && |ledger| == 1
    ensures Reachable(s') && s'.slots == s.slots
    ensures Stage(s', Idle, [], false, [m], false, [ledger[0].(phase := Phase.Queued(1))])
  {
    Reach(s, Push(0));
    s' := Do(s, Push(0));
    assert [] + [m] == [m];
  }

  lemma SentOut(q: seq<Byte>) returns (s: State, m: Message)
    requires |q| >= HEADER_LENGTH
    ensures Reachable(s) && IsRequestFor(m, q)
    ensures Stage(s, Idle, [], false, [], true, [Taken(q, m.bytes, InFlight)])
    ensures s.slots[0].client == 0 && s.slots[0].hopByHop == HopByHop(q) && s.slots[0].endToEnd == EndToEnd(q)
  {
    var s0;
    s0, m := Queued(q);
    var step := Send(1, Wrote(|q|));
    Reach(s0, step);
    s := Do(s0, step);
    assert [m][1..] == [];
  }

  lemma AnswerArrives(q: seq<Byte>, a: seq<Byte>) returns (s: State, m: Message, ledger: seq<Request>)
    requires |q| >= HEADER_LENGTH && |a| >= HEADER_LENGTH && HopByHop(a) == 1
    ensures Reachable(s) && Stage(s, Offering(Work(m, 0)), [], false, [], true, ledger)
    ensures m.kind == AnswerToClient && m.note.client == 0 && m.bytes == WithIds(a, HopByHop(q), EndToEnd(q))
  {
    var s0, request := SentOut(q);
    var step := ServerAnswer(0, 0, 0, a);
    LocateRange(1, 1);
    assert FairAnswer(s0, 0, RequestToServer, a);
    Reach(s0, step);
    s := Do(s0, step);
    m, ledger := s.threads[0].work.message, s.ledger;
  }

  lemma Delivered(s: State, m: Message, ledger: seq<Request>) returns (s': State)
    requires Reachable(s) && Stage(s, Pushing(Work(m, 0), 0), [], false, [], true, ledger) && m.kind == AnswerToClient
    ensures Reachable(s') && |s'.queues| == 2 && s'.queues[0] == Present([m], AtClient(0), false)
  {
    Reach(s, Push(0));
    s' := Do(s, Push(0));
    assert [] + [m] == [m];
  }

  /** For every request and every answer that echoes its number there is a run in which the
      answer, with the identifiers of the request, waits for the client. */
  lemma AnAnswerArrives(q: seq<Byte>, a: seq<Byte>)
    requires |q| >= HEADER_LENGTH && |a| >= HEADER_LENGTH && HopByHop(a) == 1
    ensures exists s :: Reachable(s) && InQueueAt(s, 0, 0) && s.queues[0].home == AtClient(0)
                        && s.queues[0].messages[0].kind == AnswerToClient
                        && s.queues[0].messages[0].bytes == WithIds(a, HopByHop(q), EndToEnd(q))
  {
    var s0, m, ledger := AnswerArrives(q, a);
    var s1 := Offered(s0, m, false, true, ledger, 0);
    var s2 := Measured(s1, m, false, true, ledger, 0);
    var s := Delivered(s2, m, ledger);
  }

  // ------------------------------------------------------- the other direction

  /** A CER that registers the key, and a request of a server with this Destination-Host. */
  predicate Fitting(cer: seq<Byte>, q: seq<Byte>, key: seq<Byte>)
  {
    && |cer| >= HEADER_LENGTH && WellFormed(cer, HEADER_LENGTH) && RegistrationKey(cer) == Some(key)
    && |q| >= HEADER_LENGTH && WellFormed(q, HEADER_LENGTH)
    && Lookup(q, USERNAME_CODE).Some? && Lookup(q, DESTINATIONHOST_CODE) == Some(key)
  }

  lemma LookedUp(cer: seq<Byte>, q: seq<Byte>, key: seq<Byte>) returns (s: State)
    requires Fitting(cer, q, key)
    ensures Reachable(s) && s.slots == [FreeSlot()] && s.session == map[]
    ensures Stage(s, Registering(0, key, false), [], false, [], false, [])
  {
    var s0 := QueuesThere();
    Reach(s0, CerLookup(0, 0, cer));
    s := Do(s0, CerLookup(0, 0, cer));
  }

  lemma Registered(cer: seq<Byte>, q: seq<Byte>, key: seq<Byte>) returns (s: State)
    requires Fitting(cer, q, key)
    ensures Reachable(s) && s.slots == [FreeSlot()] && s.session == map[key := 0]
    ensures Stage(s, Idle, [], false, [], false, [])
  {
    var s0 := LookedUp(cer, q, key);
    Reach(s0, CerCommit(0));
    s := Do(s0, CerCommit(0));
  }

  lemma AskedByServer(cer: seq<Byte>, q: seq<Byte>, key: seq<Byte>) returns (s: State)
    requires Fitting(cer, q, key)
    ensures Reachable(s) && s.slots == [FreeSlot()]
    ensures Stage(s, Searching(Task(RequestToClient, 0, 0, q), 1), [], false, [], false, [])
  {
    var s0 := Registered(cer, q, key);
    assert Picked(s0, 0);
    assert Route(s0.session, q, 0) == 0;
    Reach(s0, ServerRequest(0, 0, q, 0));
    s := Do(s0, ServerRequest(0, 0, q, 0));
  }

  function TakenBack(q: seq<Byte>, wire: seq<Byte>, phase: Phase): (r: Request)
  {
    Request(RequestToClient, 0, 0, q, 0, wire, phase)
  }

  lemma GivenBack(cer: seq<Byte>, q: seq<Byte>, key: seq<Byte>) returns (s: State)
    requires Fitting(cer, q, key)
    ensures Reachable(s)
    ensures Stage(s, Filling(Task(RequestToClient, 0, 0, q), 0, 0), [], false, [], false, [TakenBack(q, [], Held(0))])
  {
    var s0 := AskedByServer(cer, q, key);
    Reach(s0, Probe(0));
    s := Do(s0, Probe(0));
  }

  /** The record holds what the answer needs. */
  predicate Saved(slot: Slot, q: seq<Byte>)
    requires |q| >= HEADER_LENGTH
  {
    slot.answerTo == 0 && slot.hopByHop == HopByHop(q) && slot.endToEnd == EndToEnd(q)
  }

  predicate IsRequestBack(m: Message, q: seq<Byte>)
    requires |q| >= HEADER_LENGTH
  {
    && m.kind == RequestToClient && m.sent == 0 && m.note.request == 0 && m.note.client == 0
    && |m.bytes| == |q| && HopByHop(m.bytes) == 1
  }

  lemma FilledBack(cer: seq<Byte>, q: seq<Byte>, key: seq<Byte>) returns (s: State, m: Message)
    requires Fitting(cer, q, key)
    ensures Reachable(s) && IsRequestBack(m, q)
    ensures Stage(s, Offering(Work(m, 0)), [], false, [], false, [TakenBack(q, m.bytes, Held(0))])
    ensures Saved(s.slots[0], q)
  {
    var s0 := GivenBack(cer, q, key);
    Reach(s0, Fill(0));
    s, m := PreparedBack(s0, q);
  }

  lemma PreparedBack(s0: State, q: seq<Byte>) returns (s: State, m: Message)
    requires |q| >= HEADER_LENGTH
    requires Stage(s0, Filling(Task(RequestToClient, 0, 0, q), 0, 0), [], false, [], false, [TakenBack(q, [], Held(0))])
    ensures CanDo(s0, Fill(0)) && s == Do(s0, Fill(0)) && IsRequestBack(m, q)
    ensures Stage(s, Offering(Work(m, 0)), [], false, [], false, [TakenBack(q, m.bytes, Held(0))])
    ensures Saved(s.slots[0], q)
  {
    s := Do(s0, Fill(0));
    var wire := WithHopByHop(q, 1);
    HopWritten(q);
    m := Message(RequestToClient, 0, 0, wire, 0, Note(0, 0, q));
    assert s.threads == [Offering(Work(m, 0))];
  }

  lemma HopWritten(q: seq<Byte>)
    requires |q| >= HEADER_LENGTH
    ensures |WithHopByHop(q, 1)| == |q| && HopByHop(WithHopByHop(q, 1)) == 1
  {
    IdsReplaced(q, 1, 0);
  }

  lemma PushedBack(s: State, m: Message, ledger: seq<Request>) returns (s': State)
    requires Reachable(s) && Stage(s, Pushing(Work(m, 0), 0), [], false, [], false, ledger)
    requires m.kind == RequestToClient && m.note.request == 0 && |ledger| == 1
    ensures Reachable(s') && s'.slots == s.slots
    ensures Stage(s', Idle, [m], false, [], false, [ledger[0].(phase := Phase.Queued(0))])
  {
    Reach(s, Push(0));
    s' := Do(s, Push(0));
    assert [] + [m] == [m];
  }

  lemma QueuedBack(cer: seq<Byte>, q: seq<Byte>, key: seq<Byte>) returns (s: State, m: Message)
    requires Fitting(cer, q, key)
    ensures Reachable(s) && IsRequestBack(m, q)
    ensures Stage(s, Idle, [m], false, [], false, [TakenBack(q, m.bytes, Phase.Queued(0))])
    ensures Saved(s.slots[0], q)
  {
    var s0;
    s0, m := FilledBack(cer, q, key);
    var ledger := [TakenBack(q, m.bytes, Held(0))];
    var s1 := Offered(s0, m, false, false, ledger, 0);
    var s2 := Measured(s1, m, false, false, ledger, 0);
    s := PushedBack(s2, m, ledger);
  }

  lemma SentBack(cer: seq<Byte>, q: seq<Byte>, key: seq<Byte>) returns (s: State, m: Message)
    requires Fitting(cer, q, key)
    ensures Reachable(s) && IsRequestBack(m, q)
    ensures Stage(s, Idle, [], true, [], false, [TakenBack(q, m.bytes, InFlight)])
    ensures Saved(s.slots[0], q)
  {
    var s0;
    s0, m := QueuedBack(cer, q, key);
    Reach(s0, Send(0, Wrote(|q|)));
    s := Do(s0, Send(0, Wrote(|q|)));
    assert [m][1..] == [];
  }

  lemma ClientAnswers(cer: seq<Byte>, q: seq<Byte>, key: seq<Byte>, a: seq<Byte>)
    returns (s: State, m: Message, ledger: seq<Request>)
    requires Fitting(cer, q, key) && |a| >= HEADER_LENGTH && HopByHop(a) == 1
    ensures Reachable(s) && Stage(s, Offering(Work(m, 0)), [], true, [], false, ledger)
    ensures m.kind == AnswerToServer && m.connection == 0 && m.bytes == WithIds(a, HopByHop(q), EndToEnd(q))
  {
    var s0, request := SentBack(cer, q, key);
    LocateRange(1, 1);
    assert FairAnswer(s0, 0, RequestToClient, a);
    Reach(s0, ClientAnswer(0, 0, a));
    s := Do(s0, ClientAnswer(0, 0, a));
    m, ledger := s.threads[0].work.message, s.ledger;
  }

  lemma DeliveredBack(s: State, m: Message, ledger: seq<Request>) returns (s': State)
    requires Reachable(s) && Stage(s, Pushing(Work(m, 0), 1), [], true, [], false, ledger) && m.kind == AnswerToServer
    ensures Reachable(s') && |s'.queues| == 2 && s'.queues[1] == Present([m], AtServer(0), false)
  {
    Reach(s, Push(0));
    s' := Do(s, Push(0));
    assert [] + [m] == [m];
  }

  /** For every CER, every request of a server that names what it registered, and every answer
      that echoes its number there is a run in which the request is sent to that client and the
      answer, with the identifiers of the request, waits for the server. */
  lemma AnAnswerGoesBack(cer: seq<Byte>, q: seq<Byte>, key: seq<Byte>, a: seq<Byte>)
    requires Fitting(cer, q, key) && |a| >= HEADER_LENGTH && HopByHop(a) == 1
    ensures exists s :: Reachable(s) && InQueueAt(s, 1, 0) && s.queues[1].home == AtServer(0)
                        && s.queues[1].messages[0].kind == AnswerToServer
                        && s.queues[1].messages[0].bytes == WithIds(a, HopByHop(q), EndToEnd(q))
  {
    var s0, m, ledger := ClientAnswers(cer, q, key, a);
    var s1 := Offered(s0, m, true, false, ledger, 1);
    var s2 := Measured(s1, m, true, false, ledger, 1);
    var s := DeliveredBack(s2, m, ledger);
  }

  /** There are such messages, for every name. */
  lemma FittingMessages(key: seq<Byte>) returns (cer: seq<Byte>, q: seq<Byte>)
    requires AVP_HEADER_LENGTH + |key| < 0x100_0000
    ensures Fitting(cer, q, key)
  {
    var user, dest := Avp(USERNAME_CODE, 0, key), Avp(DESTINATIONHOST_CODE, 0, key);
    cer, q := Zeros(HEADER_LENGTH) + EncodeAvps([user]), Zeros(HEADER_LENGTH) + EncodeAvps([user, dest]);
    LookupBuilt(Zeros(HEADER_LENGTH), [user], USERNAME_CODE);
    LookupBuilt(Zeros(HEADER_LENGTH), [user, dest], USERNAME_CODE);
    LookupBuilt(Zeros(HEADER_LENGTH), [user, dest], DESTINATIONHOST_CODE);
    FirstDataAt([user], 0);
    FirstDataAt([user, dest], 0);
    FirstDataAt([user, dest], 1);
  }
}
