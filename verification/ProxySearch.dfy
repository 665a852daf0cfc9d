/** The searches for a free transaction in the runs of the proxy: how many probes they make,
    and when they fail. */
module ProxySearch {
  import opened Octets
  import opened Codec
  import opened Pending
  import opened Proxy
  import opened ProxyInvariant
  import opened ProxySteps
  import opened ProxyThreads
  import opened ProxyTheorems
  import TransactionTable

  /** Thread `t` has been searching since the step before the state with number `i`, and
      still is in the state with number `j`. */
  ghost predicate SearchingSince(states: seq<State>, steps: seq<Step>, i: nat, j: nat, t: nat)
    requires |states| == |steps| + 1
  {
    && 1 <= i <= j < |states| && Starts(steps[i - 1]) && steps[i - 1].t == t
    && forall n :: i <= n <= j ==> t < |states[n].threads| && states[n].threads[t].Searching?
  }

  /** The probes thread `t` makes between two states. */
  function ProbesMade(steps: seq<Step>, i: nat, j: nat, t: nat): (n: nat)
    requires i <= j <= |steps|
    decreases j
  {
    if i == j then 0 else ProbesMade(steps, i, j - 1, t) + (if steps[j - 1] == Probe(t) then 1 else 0)
  }

  ghost predicate IsSearching(s: State, t: nat)
  {
    t < |s.threads| && s.threads[t].Searching?
  }

  /** From state to state a searching thread counts its own probes. */
  ghost predicate CountsOne(s: State, step: Step, s': State, t: nat)
  {
    IsSearching(s, t) && IsSearching(s', t) ==>
      s'.threads[t].probes == s.threads[t].probes + (if step == Probe(t) then 1 else 0)
  }

  lemma StepCounts(s: State, step: Step, t: nat)
    requires CanDo(s, step)
    ensures CountsOne(s, step, Do(s, step), t)
  {
    if IsSearching(s, t) && IsSearching(Do(s, step), t) {
      HowSearching(s, step, t);
      StartsOnce(s, step, t);
    }
  }

  ghost predicate AllCount(states: seq<State>, steps: seq<Step>, t: nat)
    requires |states| == |steps| + 1
  {
    forall n :: 0 <= n < |steps| ==> CountsOne(states[n], steps[n], states[n + 1], t)
  }

  lemma RunCounts(states: seq<State>, steps: seq<Step>, t: nat)
    requires IsRun(states, steps)
    ensures AllCount(states, steps, t)
  {
    forall n | 0 <= n < |steps| ensures CountsOne(states[n], steps[n], states[n + 1], t) {
      StepCounts(states[n], steps[n], t);
    }
  }

  lemma {:induction false} SumOfProbes(states: seq<State>, steps: seq<Step>, i: nat, j: nat, t: nat)
    requires |states| == |steps| + 1 && AllCount(states, steps, t) && SearchingSince(states, steps, i, j, t)
    ensures states[j].threads[t].probes == states[i].threads[t].probes + ProbesMade(steps, i, j, t)
    decreases j
  {
    if i < j {
      Shorter(states, steps, i, j, t);
      SumOfProbes(states, steps, i, j - 1, t);
      assert CountsOne(states[j - 1], steps[j - 1], states[j - 1 + 1], t);
    }
  }

  lemma FirstProbe(states: seq<State>, steps: seq<Step>, i: nat, t: nat)
    requires IsRun(states, steps) && SearchingSince(states, steps, i, i, t)
    ensures states[i].threads[t].probes == 1
  {
    assert states[i].threads[t].Searching?;
    HowSearching(states[i - 1], steps[i - 1], t);
  }

  lemma ProbesCounted(states: seq<State>, steps: seq<Step>, i: nat, j: nat, t: nat)
    requires IsRun(states, steps) && SearchingSince(states, steps, i, j, t)
    ensures states[j].threads[t].probes == ProbesMade(steps, i, j, t) + 1
  {
    RunCounts(states, steps, t);
    SumOfProbes(states, steps, i, j, t);
    FirstProbe(states, steps, i, t);
  }

  lemma Shorter(states: seq<State>, steps: seq<Step>, i: nat, j: nat, t: nat)
    requires |states| == |steps| + 1 && SearchingSince(states, steps, i, j, t) && i < j
    ensures SearchingSince(states, steps, i, j - 1, t)
    ensures t < |states[j - 1].threads| && states[j - 1].threads[t].Searching?
    ensures t < |states[j].threads| && states[j].threads[t].Searching?
  {
  }

  lemma StartsOnce(s: State, step: Step, t: nat)
    requires CanDo(s, step) && t < |s.threads| && s.threads[t].Searching?
    ensures !(Starts(step) && step.t == t)
  {
  }

  /** A search goes on from state to state, or was started by the step in between. */
  lemma SearchStep(states: seq<State>, steps: seq<Step>, j: nat, t: nat)
    requires IsRun(states, steps) && j < |states| && t < |states[j].threads| && states[j].threads[t].Searching?
    ensures j > 0
    ensures SearchingSince(states, steps, j, j, t)
            || (t < |states[j - 1].threads| && states[j - 1].threads[t].Searching?)
  {
    if j > 0 {
      HowSearching(states[j - 1], steps[j - 1], t);
    }
  }

  /** Looking back from any state, a search goes on or has just been started. */
  ghost predicate Backed(states: seq<State>, steps: seq<Step>, t: nat)
    requires |states| == |steps| + 1
  {
    forall n :: 0 <= n < |states| && IsSearching(states[n], t) ==>
      n > 0 && (SearchingSince(states, steps, n, n, t) || IsSearching(states[n - 1], t))
  }

  lemma RunBacked(states: seq<State>, steps: seq<Step>, t: nat)
    requires IsRun(states, steps)
    ensures Backed(states, steps, t)
  {
    forall n | 0 <= n < |states| && IsSearching(states[n], t)
      ensures n > 0 && (SearchingSince(states, steps, n, n, t) || IsSearching(states[n - 1], t))
    {
      SearchStep(states, steps, n, t);
    }
  }

  lemma {:induction false} SearchBegan(states: seq<State>, steps: seq<Step>, j: nat, t: nat)
    requires |states| == |steps| + 1 && Backed(states, steps, t) && j < |states| && IsSearching(states[j], t)
    ensures exists i :: SearchingSince(states, steps, i, j, t)
    decreases j
  {
    if !SearchingSince(states, steps, j, j, t) {
      SearchBegan(states, steps, j - 1, t);
      var i :| SearchingSince(states, steps, i, j - 1, t);
      assert SearchingSince(states, steps, i, j, t);
    }
  }

  /** Whatever the other threads do: every search began with the receipt of a request, and
      from there on its thread has made fewer probes than there are records, so that with
      the next one it has made at most as many. */
  lemma ProbesBounded(states: seq<State>, steps: seq<Step>, j: nat, t: nat)
    requires IsRun(states, steps) && j < |states| && t < |states[j].threads| && states[j].threads[t].Searching?
    ensures exists i :: SearchingSince(states, steps, i, j, t)
    ensures forall i :: SearchingSince(states, steps, i, j, t) ==>
              ProbesMade(steps, i, j, t) + 1 <= |states[j].slots|
  {
    RunBacked(states, steps, t);
    SearchBegan(states, steps, j, t);
    RunKeeps(states, steps, j);
    assert ThreadOk(t, states[j].threads[t], states[j].ledger, |states[j].slots|);
    forall i | SearchingSince(states, steps, i, j, t) ensures ProbesMade(steps, i, j, t) + 1 <= |states[j].slots| {
      ProbesCounted(states, steps, i, j, t);
    }
  }

  // ------------------------------------------------------------------- failure

  lemma {:induction false} ProbesMove(events: seq<TransactionTable.Event>, steps: seq<Step>, i: nat, j: nat, t: nat)
    requires i <= j <= |events| == |steps|
    requires forall n :: i <= n < j && steps[n] == Probe(t) ==> events[n] == TransactionTable.Skip
    ensures TransactionTable.Moves(events, i, j) >= ProbesMade(steps, i, j, t)
    decreases j
  {
    if i < j {
      ProbesMove(events, steps, i, j - 1, t);
    }
  }

  /** Each probe of a search that goes on has moved the cursor. */
  lemma SearchMoves(states: seq<State>, steps: seq<Step>, i: nat, j: nat, t: nat)
    requires IsRun(states, steps) && SearchingSince(states, steps, i, j, t)
    ensures TransactionTable.Moves(EventsOf(states, steps), i, j) >= ProbesMade(steps, i, j, t)
  {
    var events := EventsOf(states, steps);
    forall n | i <= n < j && steps[n] == Probe(t) ensures events[n] == TransactionTable.Skip {
      assert states[n + 1].threads[t].Searching?;
      GoesOn(states[n], t);
    }
    ProbesMove(events, steps, i, j, t);
  }

  lemma GoesOn(s: State, t: nat)
    requires CanDo(s, Probe(t)) && Do(s, Probe(t)).threads[t].Searching?
    ensures EventOf(s, Probe(t)) == TransactionTable.Skip
  {
  }

  lemma Fails(s: State, t: nat)
    requires CanDo(s, Probe(t)) && Do(s, Probe(t)).threads[t].Closing?
    ensures EventOf(s, Probe(t)) == TransactionTable.GiveUp && s.threads[t].probes >= |s.slots|
  {
  }

  /** The record was released in step `k`, and given to no request before the state with
      number `j`. */
  ghost predicate ReleasedSince(states: seq<State>, steps: seq<Step>, k: nat, j: nat, x: nat)
    requires IsRun(states, steps) && j <= |steps|
  {
    && k < j && EventOf(states[k], steps[k]) == TransactionTable.Release(x)
    && forall l :: k < l < j ==> !TakesAt(states, steps, l, x)
  }

  lemma SameRelease(states: seq<State>, steps: seq<Step>, k: nat, j: nat, x: nat)
    requires IsRun(states, steps) && j <= |steps| && x < |states[0].slots|
    requires TransactionTable.IsRun(TablesOf(states), EventsOf(states, steps))
    ensures TransactionTable.FreeSince(TablesOf(states), EventsOf(states, steps), k, j, x)
            <==> ReleasedSince(states, steps, k, j, x)
  {
    var run, events := TablesOf(states), EventsOf(states, steps);
    forall l | k < l < j
      ensures TransactionTable.TakenAt(run, events, l, x) <==> TakesAt(states, steps, l, x)
    {
      SameSize(states, steps, l);
      assert run[l].cursor == states[l].cursor;
    }
  }

  /** A whole search that finds nothing. In every run, and whatever the other threads did
      meanwhile, a record is free when the search of thread `t` gives up if and only if it was
      released during that search and not given away again. */
  lemma FailedSearch(states: seq<State>, steps: seq<Step>, i: nat, j: nat, t: nat, x: nat)
    requires IsRun(states, steps) && SearchingSince(states, steps, i, j, t) && x < |states[0].slots|
    requires j < |steps| && steps[j] == Probe(t) && states[j + 1].threads[t].Closing?
    ensures x < |states[j].slots|
    ensures !states[j].slots[x].used <==> exists k :: i <= k < j && ReleasedSince(states, steps, k, j, x)
  {
    RunIsTableRun(states, steps);
    var run, events := TablesOf(states), EventsOf(states, steps);
    SameSize(states, steps, j);
    Fails(states[j], t);
    ProbesCounted(states, steps, i, j, t);
    SearchMoves(states, steps, i, j, t);
    assert TransactionTable.GivesUp(run, events, i, j);
    TransactionTable.FreeAtGiveUp(run, events, i, j, x);
    assert run[j].used[x] == states[j].slots[x].used;
    forall k | 0 <= k < j
      ensures TransactionTable.FreeSince(run, events, k, j, x) <==> ReleasedSince(states, steps, k, j, x)
    {
      SameRelease(states, steps, k, j, x);
    }
  }

  /** So if nothing is released during the search, the table is full. */
  lemma FullTable(states: seq<State>, steps: seq<Step>, i: nat, j: nat, t: nat)
    requires IsRun(states, steps) && SearchingSince(states, steps, i, j, t)
    requires j < |steps| && steps[j] == Probe(t) && states[j + 1].threads[t].Closing?
    requires forall k :: i <= k < j ==> !EventOf(states[k], steps[k]).Release?
    ensures forall x :: 0 <= x < |states[j].slots| ==> states[j].slots[x].used
  {
    SameSize(states, steps, j);
    forall x | 0 <= x < |states[j].slots| ensures states[j].slots[x].used {
      FailedSearch(states, steps, i, j, t, x);
    }
  }
}
