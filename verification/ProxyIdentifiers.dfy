/** The end-to-end identifiers on the wire, over every run. */
module ProxyIdentifiers {
  import opened Octets
  import opened Codec
  import opened Pending
  import opened Proxy
  import opened ProxySteps
  import EndToEndIds

  /** The step gives a client's request its identifiers. */
  predicate Stamps(s: State, step: Step, t: nat)
  {
    step == Fill(t) && t < |s.threads| && s.threads[t].Filling? && s.threads[t].task.kind == RequestToServer
  }

  /** How many requests thread `t` stamps between two states. */
  function Stamped(states: seq<State>, steps: seq<Step>, i: nat, j: nat, t: nat): (n: nat)
    requires |states| == |steps| + 1 && i <= j <= |steps|
    decreases j
  {
    if i == j then 0
    else Stamped(states, steps, i, j - 1, t) + (if Stamps(states[j - 1], steps[j - 1], t) then 1 else 0)
  }

  // ---------------------------------------------------------------------- one step

  /** The counter of a thread moves when it stamps a request, and not otherwise. */
  ghost predicate CountsStamps(s: State, step: Step, s': State, t: nat)
  {
    && s'.config == s.config && |s'.counts| == |s.counts|
    && (t < |s.counts| ==>
          s'.counts[t] == if Stamps(s, step, t) then EndToEndIds.Next(s.counts[t]) else s.counts[t])
  }

  lemma FillStamps(s: State, u: nat, t: nat)
    requires CanDo(s, Fill(u))
    ensures CountsStamps(s, Fill(u), DoFill(s, u), t)
  {
  }

  lemma ServiceStamps(s: State, step: Step, t: nat)
    requires CanDo(s, step) && (step.Send? || step.Pop? || step.StartClean? || step.Sweep?)
    ensures CountsStamps(s, step, Do(s, step), t)
  {
    assert Do(s, step).config == s.config && Do(s, step).counts == s.counts;
  }

  lemma PeersStamps(s: State, step: Step, t: nat)
    requires CanDo(s, step) && (step.Abandon? || step.Up? || step.Down? || step.Attach?)
    ensures CountsStamps(s, step, Do(s, step), t)
  {
    assert Do(s, step).config == s.config && Do(s, step).counts == s.counts;
  }

  lemma OtherStamps(s: State, step: Step, t: nat)
    requires CanDo(s, step) && !step.Fill? && !IsService(step)
    ensures CountsStamps(s, step, Do(s, step), t)
  {
  }

  lemma StepStamps(s: State, step: Step, t: nat)
    requires CanDo(s, step)
    ensures CountsStamps(s, step, Do(s, step), t)
  {
    if step.Fill? {
      FillStamps(s, step.t, t);
    } else if step.Abandon? || step.Up? || step.Down? || step.Attach? {
      PeersStamps(s, step, t);
    } else if IsService(step) {
      ServiceStamps(s, step, t);
    } else {
      OtherStamps(s, step, t);
    }
  }

  /** The identifier a stamped request goes out with. */
  lemma StampedId(s: State, t: nat)
    requires CanDo(s, Fill(t)) && Stamps(s, Fill(t), t)
    ensures var r, s' := s.threads[t].request, Do(s, Fill(t));
            && r < |s'.ledger| && |s'.ledger[r].wire| >= HEADER_LENGTH
            && EndToEnd(s'.ledger[r].wire)
               == EndToEndIds.Generate(s.threads[t].task.client, s.config.seed, s.counts[t])
  {
    var task := s.threads[t].task;
    IdsReplaced(task.bytes, s.threads[t].slot + 1,
                EndToEndIds.Generate(task.client, s.config.seed, s.counts[t]));
  }

  // ----------------------------------------------------------------------- all runs

  ghost predicate AllStamps(states: seq<State>, steps: seq<Step>, t: nat)
    requires |states| == |steps| + 1
  {
    && (t < |states[0].counts| ==> states[0].counts[t] == 0)
    && forall n :: 0 <= n < |steps| ==> CountsStamps(states[n], steps[n], states[n + 1], t)
  }

  lemma RunStamps(states: seq<State>, steps: seq<Step>, t: nat)
    requires IsRun(states, steps)
    ensures AllStamps(states, steps, t)
  {
    forall n | 0 <= n < |steps| ensures CountsStamps(states[n], steps[n], states[n + 1], t) {
      StepStamps(states[n], steps[n], t);
    }
  }

  lemma {:induction false} CounterAt(states: seq<State>, steps: seq<Step>, i: nat, j: nat, t: nat)
    requires |states| == |steps| + 1 && i <= j <= |steps| && AllStamps(states, steps, t)
    requires t < |states[i].counts|
    ensures states[j].config == states[i].config && t < |states[j].counts|
    ensures states[j].counts[t] == EndToEndIds.CountAfter(states[i].counts[t], Stamped(states, steps, i, j, t))
    decreases j
  {
    if i < j {
      CounterAt(states, steps, i, j - 1, t);
      assert CountsStamps(states[j - 1], steps[j - 1], states[j - 1 + 1], t);
    }
  }

  lemma {:induction false} CounterInRange(states: seq<State>, steps: seq<Step>, i: nat, t: nat)
    requires |states| == |steps| + 1 && i <= |steps| && AllStamps(states, steps, t) && t < |states[i].counts|
    ensures states[i].counts[t] <= EndToEndIds.LAST_COUNT
    decreases i
  {
    if i > 0 {
      assert CountsStamps(states[i - 1], steps[i - 1], states[i - 1 + 1], t);
      CounterInRange(states, steps, i - 1, t);
    }
  }

  /** The identifier given to a request in a step, as its octets for the wire show it. */
  ghost function IdGiven(states: seq<State>, steps: seq<Step>, n: nat, t: nat): (id: Word)
    requires IsRun(states, steps) && n < |steps| && Stamps(states[n], steps[n], t)
  {
    StampedId(states[n], t);
    EndToEnd(states[n + 1].ledger[states[n].threads[t].request].wire)
  }

  /** In every run, any 7296 consecutive requests of clients that a thread passes on carry
      different end-to-end identifiers on the wire, whichever of its clients they are from. */
  lemma ConsecutiveIdsDiffer(states: seq<State>, steps: seq<Step>, i: nat, j: nat, t: nat)
    requires IsRun(states, steps) && i < j < |steps|
    requires Stamps(states[i], steps[i], t) && Stamps(states[j], steps[j], t)
    requires Stamped(states, steps, i, j, t) <= EndToEndIds.LAST_COUNT
    requires states[0].config.seed <= EndToEndIds.MAX_SEED
    requires states[i].threads[t].task.client <= EndToEndIds.MAX_POSITION
    requires states[j].threads[t].task.client <= EndToEndIds.MAX_POSITION
    ensures IdGiven(states, steps, i, t) != IdGiven(states, steps, j, t)
  {
    RunStamps(states, steps, t);
    var d := Stamped(states, steps, i, j, t);
    Enough(states, steps, i, j, t);
    Given(states, steps, i, t);
    Given(states, steps, j, t);
    CounterAt(states, steps, i, j, t);
    CounterInRange(states, steps, i, t);
    EndToEndIds.ConsecutiveDiffer(states[i].counts[t], 0, d, states[i].threads[t].task.client,
                                  states[j].threads[t].task.client, states[0].config.seed);
  }

  /** What the identifier is: made of the client's position, the seed and the number of
      requests the thread has stamped before. */
  lemma IdOnWire(states: seq<State>, steps: seq<Step>, n: nat, t: nat)
    requires IsRun(states, steps) && n < |steps| && Stamps(states[n], steps[n], t)
    ensures IdGiven(states, steps, n, t)
            == ((states[n].threads[t].task.client + 1) * 1000000 + states[0].config.seed * 10000
                + Stamped(states, steps, 0, n, t) % 7296) % 0x1_0000_0000
  {
    Given(states, steps, n, t);
    CounterOfRun(states, steps, n, t);
    MadeOf(IdGiven(states, steps, n, t), states[n].threads[t].task.client, states[0].config.seed,
           states[n].counts[t], Stamped(states, steps, 0, n, t));
  }

  lemma CounterOfRun(states: seq<State>, steps: seq<Step>, n: nat, t: nat)
    requires IsRun(states, steps) && n < |steps| && t < |states[n].counts|
    ensures states[n].counts[t] == Stamped(states, steps, 0, n, t) % 7296
  {
    RunStamps(states, steps, t);
    CounterIs(states, steps, n, t);
  }

  lemma MadeOf(id: Word, client: nat, seed: nat, count: nat, before: nat)
    requires id == EndToEndIds.Generate(client, seed, count) && count == before % 7296
    ensures id == ((client + 1) * 1000000 + seed * 10000 + before % 7296) % 0x1_0000_0000
  {
  }

  lemma CounterIs(states: seq<State>, steps: seq<Step>, n: nat, t: nat)
    requires |states| == |steps| + 1 && n <= |steps| && AllStamps(states, steps, t) && t < |states[n].counts|
    ensures states[n].counts[t] == Stamped(states, steps, 0, n, t) % 7296
  {
    SameCounts(states, steps, n, t);
    CounterAt(states, steps, 0, n, t);
    EndToEndIds.CountAfterIs(0, Stamped(states, steps, 0, n, t));
  }

  lemma {:induction false} SameCounts(states: seq<State>, steps: seq<Step>, n: nat, t: nat)
    requires |states| == |steps| + 1 && n <= |steps| && AllStamps(states, steps, t)
    ensures |states[n].counts| == |states[0].counts|
    decreases n
  {
    if n > 0 {
      assert CountsStamps(states[n - 1], steps[n - 1], states[n - 1 + 1], t);
      SameCounts(states, steps, n - 1, t);
    }
  }

  lemma Given(states: seq<State>, steps: seq<Step>, n: nat, t: nat)
    requires IsRun(states, steps) && n < |steps| && Stamps(states[n], steps[n], t)
    ensures t < |states[n].counts|
    ensures IdGiven(states, steps, n, t)
            == EndToEndIds.Generate(states[n].threads[t].task.client, states[0].config.seed, states[n].counts[t])
  {
    StampedId(states[n], t);
    RunStamps(states, steps, t);
    SameConfig(states, steps, n, t);
  }

  lemma {:induction false} SameConfig(states: seq<State>, steps: seq<Step>, n: nat, t: nat)
    requires |states| == |steps| + 1 && n <= |steps| && AllStamps(states, steps, t)
    ensures states[n].config == states[0].config
    decreases n
  {
    if n > 0 {
      assert CountsStamps(states[n - 1], steps[n - 1], states[n - 1 + 1], t);
      SameConfig(states, steps, n - 1, t);
    }
  }

  /** The first of the two is one of the requests counted. */
  lemma {:induction false} Enough(states: seq<State>, steps: seq<Step>, i: nat, j: nat, t: nat)
    requires |states| == |steps| + 1 && i < j <= |steps| && Stamps(states[i], steps[i], t)
    ensures Stamped(states, steps, i, j, t) >= 1
    decreases j
  {
    if i + 1 < j {
      Enough(states, steps, i, j - 1, t);
    }
  }
}
