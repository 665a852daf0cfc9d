/** A step moves one thread: the others stay where they are, and one that is in the middle of
    handling a message only moves by a step of its own. */
module ProxyThreads {
  import opened Octets
  import opened Codec
  import opened Pending
  import opened Proxy
  import opened ProxySteps

  predicate InMidst(s: State, t: nat)
  {
    && t < |s.threads|
    && !s.threads[t].Idle? && !s.threads[t].Sweeping? && !s.threads[t].Registering?
  }

  lemma Elsewhere(s: State, step: Step, t: nat)
    requires CanDo(s, step) && InMidst(s, t) && !(IsHandling(step) && step.t == t)
    ensures t < |Do(s, step).threads| && Do(s, step).threads[t] == s.threads[t]
  {
    if IsHandling(step) {
      HandlingElsewhere(s, step, t);
    } else if IsService(step) {
      ServiceElsewhere(s, step, t);
    } else {
      ReceivingElsewhere(s, step, t);
    }
  }

  lemma HandlingElsewhere(s: State, step: Step, t: nat)
    requires CanDo(s, step) && IsHandling(step) && InMidst(s, t) && step.t != t
    ensures t < |Do(s, step).threads| && Do(s, step).threads[t] == s.threads[t]
  {
    if step.Probe? {
      ProbeElsewhere(s, step.t, t);
    } else if step.Fill? {
      FillElsewhere(s, step.t, t);
    }
  }

  lemma ProbeElsewhere(s: State, u: nat, t: nat)
    requires u < |s.threads| && s.threads[u].Searching? && s.cursor < |s.slots| && t < |s.threads| && u != t
    ensures |DoProbe(s, u).threads| == |s.threads| && DoProbe(s, u).threads[t] == s.threads[t]
  {
  }

  lemma FillElsewhere(s: State, u: nat, t: nat)
    requires CanDo(s, Fill(u)) && t < |s.threads| && u != t
    ensures |DoFill(s, u).threads| == |s.threads| && DoFill(s, u).threads[t] == s.threads[t]
  {
  }

  lemma ServiceElsewhere(s: State, step: Step, t: nat)
    requires CanDo(s, step) && IsService(step) && InMidst(s, t)
    ensures t < |Do(s, step).threads| && Do(s, step).threads[t] == s.threads[t]
  {
  }

  lemma ReceivingElsewhere(s: State, step: Step, t: nat)
    requires CanDo(s, step) && !IsService(step) && !IsHandling(step) && InMidst(s, t)
    ensures t < |Do(s, step).threads| && Do(s, step).threads[t] == s.threads[t]
  {
    if step.ServerAnswer? {
      AnswerElsewhere(s, step.t, step.connection, step.request, step.bytes, t);
    } else if step.ClientAnswer? {
      AnswerElsewhere(s, step.t, 0, step.request, step.bytes, t);
    }
  }

  lemma AnswerElsewhere(s: State, u: nat, k: nat, r: nat, bytes: seq<Byte>, t: nat)
    requires u < |s.threads| && |bytes| >= HEADER_LENGTH && |s.slots| >= 1 && t < |s.threads| && u != t
    ensures var a := DoServerAnswer(s, u, k, r, bytes);
            |a.threads| == |s.threads| && a.threads[t] == s.threads[t]
    ensures var a := DoClientAnswer(s, u, r, bytes);
            |a.threads| == |s.threads| && a.threads[t] == s.threads[t]
  {
  }

  /** Whether a step starts the handling of a request. */
  predicate Starts(step: Step)
  {
    step.ClientRequest? || step.ServerRequest?
  }

  /** A thread is searching either since this step or as it was before it. */
  lemma HowSearching(s: State, step: Step, t: nat)
    requires CanDo(s, step) && t < |Do(s, step).threads| && Do(s, step).threads[t].Searching?
    ensures t < |s.threads|
    ensures if Starts(step) && step.t == t then Do(s, step).threads[t].probes == 1
            else s.threads[t].Searching?
                 && Do(s, step).threads[t].probes == s.threads[t].probes + (if step == Probe(t) then 1 else 0)
  {
    if step.Probe? {
      ProbeSearching(s, step.t, t);
    } else if step.Fill? {
      FillSearching(s, step.t, t);
    } else if IsHandling(step) {
      HandlingSearching(s, step, t);
    } else if IsService(step) {
      ServiceSearching(s, step, t);
    } else if step.ServerAnswer? || step.ClientAnswer? {
      AnswerSearching(s, step, t);
    } else {
      ReceivingSearching(s, step, t);
    }
  }

  lemma ProbeSearching(s: State, u: nat, t: nat)
    requires u < |s.threads| && s.threads[u].Searching? && s.cursor < |s.slots|
    ensures |DoProbe(s, u).threads| == |s.threads|
    ensures t < |s.threads| && DoProbe(s, u).threads[t].Searching? ==>
              s.threads[t].Searching?
              && DoProbe(s, u).threads[t].probes == s.threads[t].probes + (if u == t then 1 else 0)
  {
  }

  lemma FillSearching(s: State, u: nat, t: nat)
    requires CanDo(s, Fill(u))
    ensures |DoFill(s, u).threads| == |s.threads|
    ensures t < |s.threads| && DoFill(s, u).threads[t].Searching? ==> DoFill(s, u).threads[t] == s.threads[t]
  {
  }

  lemma HandlingSearching(s: State, step: Step, t: nat)
    requires CanDo(s, step) && IsHandling(step) && !step.Probe? && !step.Fill?
    ensures |Do(s, step).threads| == |s.threads|
    ensures t < |s.threads| && Do(s, step).threads[t].Searching? ==> Do(s, step).threads[t] == s.threads[t]
  {
    if step.Push? {
      PushSearching(s, step.t, t);
    }
  }

  lemma PushSearching(s: State, u: nat, t: nat)
    requires CanDo(s, Push(u))
    ensures |DoPush(s, u).threads| == |s.threads|
    ensures t < |s.threads| && DoPush(s, u).threads[t].Searching? ==> DoPush(s, u).threads[t] == s.threads[t]
  {
  }

  lemma ServiceSearching(s: State, step: Step, t: nat)
    requires CanDo(s, step) && IsService(step)
    ensures |Do(s, step).threads| == |s.threads|
    ensures t < |s.threads| && Do(s, step).threads[t].Searching? ==> Do(s, step).threads[t] == s.threads[t]
  {
  }

  lemma AnswerSearching(s: State, step: Step, t: nat)
    requires CanDo(s, step) && (step.ServerAnswer? || step.ClientAnswer?)
    ensures |Do(s, step).threads| == |s.threads|
    ensures t < |s.threads| && Do(s, step).threads[t].Searching? ==> Do(s, step).threads[t] == s.threads[t]
  {
  }

  lemma ReceivingSearching(s: State, step: Step, t: nat)
    requires CanDo(s, step) && (Starts(step) || step.CerLookup? || step.CerCommit?)
    ensures |Do(s, step).threads| == |s.threads|
    ensures t < |s.threads| && Do(s, step).threads[t].Searching? ==>
              if Starts(step) && step.t == t then Do(s, step).threads[t].probes == 1
              else Do(s, step).threads[t] == s.threads[t]
  {
  }
}
