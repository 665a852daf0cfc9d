/** Sessions: which client a request of a server is assigned to, over every run. */
module ProxySessions {
  import opened Octets
  import opened Codec
  import opened Pending
  import opened Proxy
  import opened ProxyInvariant
  import opened ProxySteps
  import opened ProxyThreads
  import opened ProxyOrigins
  import Clients

  type Registrations = seq<(seq<Byte>, nat)>

  /** The client that registered a key last. */
  function Latest(regs: Registrations, key: seq<Byte>): (client: Option<nat>)
  {
    if regs == [] then None
    else if regs[|regs| - 1].0 == key then Some(regs[|regs| - 1].1)
    else Latest(regs[..|regs| - 1], key)
  }

  /** The rule: the client that last registered the Destination-Host; if none did, the one
      that last registered the User-Name; if none did either, any. */
  predicate Assigned(bytes: seq<Byte>, client: nat, regs: Registrations)
  {
    && WellFormed(bytes, HEADER_LENGTH)
    && var user, dest := Lookup(bytes, USERNAME_CODE), Lookup(bytes, DESTINATIONHOST_CODE);
       && user.Some? && dest.Some?
       && (Latest(regs, dest.value).Some? ==> client == Latest(regs, dest.value).value)
       && (Latest(regs, dest.value) == None && Latest(regs, user.value).Some? ==>
             client == Latest(regs, user.value).value)
  }

  /** The session map holds, for every key, the client that registered it last. */
  ghost predicate SessionOk(session: map<seq<Byte>, nat>, regs: Registrations)
  {
    forall key :: (key in session <==> Latest(regs, key).Some?)
                  && (key in session ==> session[key] == Latest(regs, key).value)
  }

  // -------------------------------------------------------------------- the rule

  lemma RouteFollows(session: map<seq<Byte>, nat>, regs: Registrations, bytes: seq<Byte>, pick: int)
    requires SessionOk(session, regs) && WellFormed(bytes, HEADER_LENGTH) && Route(session, bytes, pick) >= 0
    ensures Assigned(bytes, Route(session, bytes, pick), regs)
  {
  }

  function OnlineOf(s: State): (online: seq<bool>)
    ensures |online| == |s.clients|
  {
    seq(|s.clients|, c requires 0 <= c < |s.clients| => s.clients[c].up)
  }

  /** Both AVPs are there, and somebody registered one of the two names. */
  predicate Named(bytes: seq<Byte>, regs: Registrations)
    requires WellFormed(bytes, HEADER_LENGTH)
  {
    var user, dest := Lookup(bytes, USERNAME_CODE), Lookup(bytes, DESTINATIONHOST_CODE);
    user.Some? && dest.Some? && (Latest(regs, dest.value).Some? || Latest(regs, user.value).Some?)
  }

  ghost predicate SomebodyOnline(s: State)
  {
    exists c :: 0 <= c < |s.clients| && s.clients[c].up
  }

  /** The request can be assigned: both AVPs are there, and a name is registered or some
      client is online. */
  ghost predicate Assignable(s: State, regs: Registrations, bytes: seq<Byte>)
    requires WellFormed(bytes, HEADER_LENGTH)
  {
    && Lookup(bytes, USERNAME_CODE).Some? && Lookup(bytes, DESTINATIONHOST_CODE).Some?
    && (Named(bytes, regs) || SomebodyOnline(s))
  }

  /** The whole rule: the client registered, else one that is online. */
  ghost predicate Chosen(s: State, regs: Registrations, bytes: seq<Byte>, client: nat)
  {
    && Assigned(bytes, client, regs)
    && (!Named(bytes, regs) ==> client < |s.clients| && s.clients[client].up)
  }

  /** For any pick that `findUsedClient` may make, a request is given up exactly if it is not
      assignable, and otherwise goes to the client the rule chooses. */
  lemma RouteIsChosen(s: State, regs: Registrations, bytes: seq<Byte>, pick: int)
    requires SessionOk(s.session, regs) && WellFormed(bytes, HEADER_LENGTH) && Picked(s, pick)
    ensures Route(s.session, bytes, pick) >= 0 <==> Assignable(s, regs, bytes)
    ensures Route(s.session, bytes, pick) >= 0 ==> Chosen(s, regs, bytes, Route(s.session, bytes, pick))
  {
    if Route(s.session, bytes, pick) >= 0 {
      RouteFollows(s.session, regs, bytes, pick);
    }
    assert pick >= 0 ==> SomebodyOnline(s);
  }

  /** And whatever its cursor, and whoever waits for an answer, what it finds is such a pick. */
  lemma UsedClientPicks(s: State, waiting: seq<bool>, next: nat)
    requires |waiting| == |s.clients| && next < |s.clients|
    ensures Picked(s, Clients.UsedClient(OnlineOf(s), waiting, next).0)
  {
    var online := OnlineOf(s);
    Clients.FoundIffOnline(online, waiting, next);
    assert forall c :: 0 <= c < |s.clients| ==> online[c] == s.clients[c].up;
  }

  // --------------------------------------------------------- the CERs of a run

  /** What a client registers with a CER: its User-Name, or if there is none its Origin-Host. */
  function CerKey(bytes: seq<Byte>): (key: Option<seq<Byte>>)
  {
    if !WellFormed(bytes, HEADER_LENGTH) then None
    else if Lookup(bytes, USERNAME_CODE) == None then Lookup(bytes, ORIGINHOST_CODE)
    else Lookup(bytes, USERNAME_CODE)
  }

  /** The step in which thread `t` received the CER it is handling in the state number `n`. */
  function LastCer(steps: seq<Step>, n: nat, t: nat): (l: Option<nat>)
    requires n <= |steps|
    ensures l.Some? ==> l.value < n && steps[l.value].CerLookup? && steps[l.value].t == t
  {
    if n == 0 then None
    else if steps[n - 1].CerLookup? && steps[n - 1].t == t then Some(n - 1)
    else LastCer(steps, n - 1, t)
  }

  /** A CER received in step `l` registers its name when its handling ends in step `n`, unless
      the name was absent when it was looked up and another thread has inserted it since. */
  predicate Registers(states: seq<State>, steps: seq<Step>, l: nat, n: nat, key: seq<Byte>)
    requires l <= n < |steps| < |states|
  {
    && steps[l].CerLookup? && CerKey(steps[l].bytes) == Some(key)
    && (key in states[l].session || key !in states[n].session)
  }

  /** All registrations before the state number `i`, in order, from the CERs received. */
  function Cers(states: seq<State>, steps: seq<Step>, i: nat): (regs: Registrations)
    requires i <= |steps| < |states|
  {
    if i == 0 then []
    else
      var before, n := Cers(states, steps, i - 1), i - 1;
      if !steps[n].CerCommit? || LastCer(steps, n, steps[n].t) == None then before
      else
        var l := LastCer(steps, n, steps[n].t).value;
        var key := CerKey(steps[l].bytes);
        if key.Some? && Registers(states, steps, l, n, key.value) then before + [(key.value, steps[l].client)]
        else before
  }

  // -------------------------------------------------------------------- one step

  /** A thread handles a CER since this step or as it did before, and only the end of such a
      handling touches the sessions. */
  ghost predicate SessionStep(s: State, step: Step, s': State)
  {
    && (forall t :: 0 <= t < |s'.threads| && s'.threads[t].Registering? ==>
          var pc := s'.threads[t];
          if step.CerLookup? && step.t == t
          then pc.client == step.client && CerKey(step.bytes) == Some(pc.key) && pc.found == (pc.key in s.session)
          else t < |s.threads| && s.threads[t] == pc)
    && (if step.CerCommit?
        then step.t < |s.threads| && s.threads[step.t].Registering?
             && var pc := s.threads[step.t];
                s'.session == if pc.found || pc.key !in s.session then s.session[pc.key := pc.client] else s.session
        else s'.session == s.session)
    && (forall t :: 0 <= t < |s.threads| && s.threads[t].Registering? && step != CerCommit(t) ==>
          t < |s'.threads| && s'.threads[t] == s.threads[t])
    && (step.CerLookup? ==>
          step.t < |s'.threads| && (CerKey(step.bytes).Some? ==> s'.threads[step.t].Registering?))
  }

  lemma ProbeSession(s: State, t: nat)
    requires t < |s.threads| && s.threads[t].Searching? && s.cursor < |s.slots|
    ensures SessionStep(s, Probe(t), DoProbe(s, t))
  {
  }

  lemma FillSession(s: State, t: nat)
    requires CanDo(s, Fill(t))
    ensures SessionStep(s, Fill(t), DoFill(s, t))
  {
  }

  lemma PushSession(s: State, t: nat)
    requires CanDo(s, Push(t))
    ensures SessionStep(s, Push(t), DoPush(s, t))
  {
  }

  lemma PlainSession(s: State, step: Step)
    requires CanDo(s, step) && (step.Offer? || step.Size? || step.CountDiscard? || step.ReleaseSlot?)
    ensures SessionStep(s, step, Do(s, step))
  {
  }

  lemma SendSession(s: State, k: nat, o: Outcome)
    requires CanDo(s, Send(k, o))
    ensures SessionStep(s, Send(k, o), DoSend(s, k, o))
  {
  }

  lemma CleaningSession(s: State, step: Step)
    requires CanDo(s, step) && (step.StartClean? || step.Sweep?)
    ensures SessionStep(s, step, Do(s, step))
  {
  }

  lemma PeersSession(s: State, step: Step)
    requires CanDo(s, step) && (step.Pop? || step.Abandon? || step.Up? || step.Down? || step.Attach?)
    ensures SessionStep(s, step, Do(s, step))
  {
  }

  lemma AnswerSession(s: State, step: Step)
    requires CanDo(s, step) && (step.ServerAnswer? || step.ClientAnswer?)
    ensures SessionStep(s, step, Do(s, step))
  {
  }

  lemma ReceivingSession(s: State, step: Step)
    requires CanDo(s, step) && Starts(step)
    ensures SessionStep(s, step, Do(s, step))
  {
  }

  lemma CerSession(s: State, step: Step)
    requires CanDo(s, step) && (step.CerLookup? || step.CerCommit?)
    ensures SessionStep(s, step, Do(s, step))
  {
  }

  lemma StepSession(s: State, step: Step)
    requires CanDo(s, step)
    ensures SessionStep(s, step, Do(s, step))
  {
    if step.Probe? {
      ProbeSession(s, step.t);
    } else if step.Fill? {
      FillSession(s, step.t);
    } else if step.Push? {
      PushSession(s, step.t);
    } else if IsHandling(step) {
      PlainSession(s, step);
    } else if step.Send? {
      SendSession(s, step.sock, step.outcome);
    } else if step.StartClean? || step.Sweep? {
      CleaningSession(s, step);
    } else if IsService(step) {
      PeersSession(s, step);
    } else if step.ServerAnswer? || step.ClientAnswer? {
      AnswerSession(s, step);
    } else if Starts(step) {
      ReceivingSession(s, step);
    } else {
      CerSession(s, step);
    }
  }

  // -------------------------------------------------------------------- all runs

  ghost predicate AllSessionSteps(states: seq<State>, steps: seq<Step>)
    requires |states| == |steps| + 1
  {
    && states[0].session == map[] && (forall t :: 0 <= t < |states[0].threads| ==> states[0].threads[t] == Idle)
    && (forall n :: 0 <= n < |steps| ==> SessionStep(states[n], steps[n], states[n + 1]))
  }

  lemma RunSessionSteps(states: seq<State>, steps: seq<Step>)
    requires IsRun(states, steps)
    ensures AllSessionSteps(states, steps)
  {
    forall n | 0 <= n < |steps| ensures SessionStep(states[n], steps[n], states[n + 1]) {
      StepSession(states[n], steps[n]);
    }
  }

  /** The CER a thread is handling is the last it received. */
  lemma {:induction false} HandledCer(states: seq<State>, steps: seq<Step>, n: nat, t: nat)
    requires |states| == |steps| + 1 && n < |states| && AllSessionSteps(states, steps)
    requires t < |states[n].threads| && states[n].threads[t].Registering?
    ensures var pc, l := states[n].threads[t], LastCer(steps, n, t);
            && l.Some? && steps[l.value].client == pc.client && CerKey(steps[l.value].bytes) == Some(pc.key)
            && pc.found == (pc.key in states[l.value].session)
    decreases n
  {
    if n > 0 {
      assert SessionStep(states[n - 1], steps[n - 1], states[n - 1 + 1]);
      if !(steps[n - 1].CerLookup? && steps[n - 1].t == t) {
        HandledCer(states, steps, n - 1, t);
      }
    }
  }

  lemma SessionExtended(session: map<seq<Byte>, nat>, regs: Registrations, key: seq<Byte>, c: nat)
    requires SessionOk(session, regs)
    ensures SessionOk(session[key := c], regs + [(key, c)])
  {
    var regs' := regs + [(key, c)];
    assert regs'[..|regs'| - 1] == regs;
  }

  lemma {:induction false} SessionIsCers(states: seq<State>, steps: seq<Step>, i: nat)
    requires |states| == |steps| + 1 && i < |states| && AllSessionSteps(states, steps)
    ensures SessionOk(states[i].session, Cers(states, steps, i))
    decreases i
  {
    if i > 0 {
      var n := i - 1;
      SessionIsCers(states, steps, n);
      assert SessionStep(states[n], steps[n], states[n + 1]);
      if steps[n].CerCommit? {
        HandledCer(states, steps, n, steps[n].t);
        var pc := states[n].threads[steps[n].t];
        SessionExtended(states[n].session, Cers(states, steps, n), pc.key, pc.client);
      }
    }
  }

  /** In every run the session map holds, for every name, the client whose CER registered it
      last: the User-Name of the CER, or if it has none its Origin-Host. */
  lemma SessionsKept(states: seq<State>, steps: seq<Step>, i: nat)
    requires IsRun(states, steps) && i < |states|
    ensures SessionOk(states[i].session, Cers(states, steps, i))
  {
    RunSessionSteps(states, steps);
    SessionIsCers(states, steps, i);
  }

  /** When the handling of a CER ends, its client has the name, unless and only unless the CER
      does not register it: then the sessions stay as they are. */
  lemma CerHandled(states: seq<State>, steps: seq<Step>, n: nat)
    requires IsRun(states, steps) && n < |steps| && steps[n].CerCommit?
    ensures LastCer(steps, n, steps[n].t).Some?
    ensures var l := LastCer(steps, n, steps[n].t).value;
            && CerKey(steps[l].bytes).Some?
            && var key, now := CerKey(steps[l].bytes).value, states[n + 1].session;
               now == if Registers(states, steps, l, n, key) then states[n].session[key := steps[l].client]
                      else states[n].session
  {
    RunSessionSteps(states, steps);
    assert SessionStep(states[n], steps[n], states[n + 1]);
    HandledCer(states, steps, n, steps[n].t);
  }

  /** A CER with a name is handled to the end: before its thread is idle again there is the step
      of which the lemma above speaks. */
  lemma CerComesToAnEnd(states: seq<State>, steps: seq<Step>, l: nat, i: nat)
    requires IsRun(states, steps) && l < |steps| && steps[l].CerLookup? && CerKey(steps[l].bytes).Some?
    requires l < i < |states| && IsIdle(states[i], steps[l].t)
    ensures exists n :: l < n < i && steps[n] == CerCommit(steps[l].t) && LastCer(steps, n, steps[l].t) == Some(l)
  {
    RunSessionSteps(states, steps);
    LookupsFromIdle(states, steps);
    assert SessionStep(states[l], steps[l], states[l + 1]);
    if forall n :: l < n < i ==> steps[n] != CerCommit(steps[l].t) {
      StillRegistering(states, steps, l, i);
      assert false;
    }
    var n :| l < n < i && steps[n] == CerCommit(steps[l].t);
    var first := FirstCommit(steps, l, n, steps[l].t);
    StillRegistering(states, steps, l, first);
  }

  lemma {:induction false} FirstCommit(steps: seq<Step>, l: nat, n: nat, t: nat) returns (f: nat)
    requires l < n < |steps| && steps[n] == CerCommit(t)
    ensures l < f <= n && steps[f] == CerCommit(t) && forall m :: l < m < f ==> steps[m] != CerCommit(t)
    decreases n
  {
    f := n;
    if m :| l < m < n && steps[m] == CerCommit(t) {
      f := FirstCommit(steps, l, m, t);
    }
  }

  /** A CER is received by an idle thread. */
  ghost predicate IdleLookups(states: seq<State>, steps: seq<Step>)
    requires |states| == |steps| + 1
  {
    forall n :: 0 <= n < |steps| && steps[n].CerLookup? ==> IsIdle(states[n], steps[n].t)
  }

  lemma LookupsFromIdle(states: seq<State>, steps: seq<Step>)
    requires IsRun(states, steps)
    ensures IdleLookups(states, steps)
  {
  }

  lemma {:induction false} StillRegistering(states: seq<State>, steps: seq<Step>, l: nat, i: nat)
    requires |states| == |steps| + 1 && AllSessionSteps(states, steps) && IdleLookups(states, steps)
    requires l < i < |states| && steps[l].CerLookup? && CerKey(steps[l].bytes).Some?
    requires forall n :: l < n < i ==> steps[n] != CerCommit(steps[l].t)
    ensures steps[l].t < |states[i].threads| && states[i].threads[steps[l].t].Registering?
    ensures LastCer(steps, i, steps[l].t) == Some(l)
    decreases i
  {
    assert SessionStep(states[i - 1], steps[i - 1], states[i - 1 + 1]);
    if l < i - 1 {
      StillRegistering(states, steps, l, i - 1);
    }
  }

  /** A registered name leads to a CER: some earlier step received it from that client, and its
      User-Name, or if it has none its Origin-Host, is the name. */
  lemma {:induction false} RegisteredByCer(states: seq<State>, steps: seq<Step>, i: nat, key: seq<Byte>)
    requires i <= |steps| < |states| && Latest(Cers(states, steps, i), key).Some?
    ensures exists l :: 0 <= l < i && IsCerFor(steps[l], key, Latest(Cers(states, steps, i), key).value)
    decreases i
  {
    if i > 0 {
      var before, all := Cers(states, steps, i - 1), Cers(states, steps, i);
      assert all == before || all[..|all| - 1] == before;
      if all != before && all[|all| - 1].0 == key {
        var l := LastCer(steps, i - 1, steps[i - 1].t).value;
        assert IsCerFor(steps[l], key, all[|all| - 1].1);
      } else {
        RegisteredByCer(states, steps, i - 1, key);
        var l :| 0 <= l < i - 1 && IsCerFor(steps[l], key, Latest(before, key).value);
        assert IsCerFor(steps[l], key, Latest(all, key).value);
      }
    }
  }

  predicate IsCerFor(step: Step, key: seq<Byte>, client: nat)
  {
    step.CerLookup? && step.client == client && CerKey(step.bytes) == Some(key)
  }

  /** In every run, a request of a server is given up, for want of a client, in the step that
      receives it if and only if it is not assignable then. */
  lemma RequestGivenUp(states: seq<State>, steps: seq<Step>, n: nat)
    requires IsRun(states, steps) && n < |steps| && steps[n].ServerRequest?
    ensures WellFormed(steps[n].bytes, HEADER_LENGTH) && steps[n].t < |states[n + 1].threads|
    ensures states[n + 1].threads[steps[n].t].Closing?
            <==> !Assignable(states[n], Cers(states, steps, n), steps[n].bytes)
  {
    SessionsKept(states, steps, n);
    RouteIsChosen(states[n], Cers(states, steps, n), steps[n].bytes, steps[n].pick);
  }

  /** The step received the request of a server, and the client is the one that the CERs
      received until then, or else being online, entitled to it. */
  ghost predicate ReceivedBy(states: seq<State>, steps: seq<Step>, n: nat, r: Request)
    requires n < |steps| < |states|
  {
    && steps[n].ServerRequest? && steps[n].bytes == r.bytes && steps[n].connection == r.connection
    && Chosen(states[n], Cers(states, steps, n), r.bytes, r.client)
  }

  lemma ServerRequestReceived(states: seq<State>, steps: seq<Step>, n: nat, r: Request)
    requires IsRun(states, steps) && n < |steps| && Started(states[n], steps[n]) == Some(TaskOf(r))
    requires r.kind == RequestToClient
    ensures ReceivedBy(states, steps, n, r)
  {
    SessionsKept(states, steps, n);
    RouteIsChosen(states[n], Cers(states, steps, n), r.bytes, steps[n].pick);
  }

  /** In every run, a request of a server that is waiting in a queue was received in an earlier
      step from the connection the ledger names, and waits for the client the whole rule chose
      in that step: the one whose CER last registered the Destination-Host, else the User-Name,
      else one that was online. */
  lemma RequestsReachTheirClient(states: seq<State>, steps: seq<Step>, i: nat, k: nat, j: nat)
    requires IsRun(states, steps) && i < |states| && InQueueAt(states[i], k, j)
    requires states[i].queues[k].messages[j].kind == RequestToClient
    ensures var s, m := states[i], states[i].queues[k].messages[j];
            && m.note.request < |s.ledger|
            && var r := s.ledger[m.note.request];
               && s.queues[k].home == AtClient(r.client)
               && exists n :: 0 <= n < i && ReceivedBy(states, steps, n, r)
  {
    RunKeeps(states, steps, i);
    var r := RequestBehind(states[i], k, j);
    RequestReceived(states, steps, i, states[i].queues[k].messages[j].note.request);
    var n :| 0 <= n < i && Started(states[n], steps[n]) == Some(TaskOf(r));
    ServerRequestReceived(states, steps, n, r);
  }

  lemma RequestBehind(s: State, k: nat, j: nat) returns (r: Request)
    requires Inv(s) && InQueueAt(s, k, j) && s.queues[k].messages[j].kind == RequestToClient
    ensures var m := s.queues[k].messages[j];
            m.note.request < |s.ledger| && r == s.ledger[m.note.request] && r.kind == RequestToClient
            && s.queues[k].home == AtClient(r.client)
  {
    var m := s.queues[k].messages[j];
    assert QueueOk(k, s.queues[k], s.ledger);
    assert QueuedOk(m, k, s.queues[k].home, s.ledger);
    r := s.ledger[m.note.request];
  }
}
