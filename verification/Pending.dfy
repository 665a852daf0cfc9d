/** The queues of messages waiting to be sent, one per socket: `addMessageAsPending`,
    `sendPendingMessage` and `cleanPendingMessages` (DiaProxy/source/ClientThread.cpp). */
module Pending {
  import opened Octets

  datatype Kind = RequestToServer | RequestToClient | AnswerToServer | AnswerToClient

  /** `struct Message`. `note` is not part of the program: it records where the message
      came from, so that properties can speak about it. */
  datatype Message = Message(kind: Kind, connection: nat, transaction: int,
                             bytes: seq<Byte>, sent: nat, note: Note)

  /** The request a message is, or answers; the client slot it is from or for; and its
      octets as they were received. */
  datatype Note = Note(request: nat, client: int, received: seq<Byte>)

  // ------------------------------------------------------------- counters

  /** The counters are kept per server connection and kind of message. */
  datatype Cell = Cell(connection: nat, kind: Kind)

  datatype Tally = Tally(received: nat, sent: nat, discarded: nat)

  type Counters = map<Cell, Tally>

  function At(c: Counters, cell: Cell): (t: Tally)
  {
    if cell in c then c[cell] else Tally(0, 0, 0)
  }

  function Received(c: Counters, cell: Cell): (c': Counters)
  {
    c[cell := At(c, cell).(received := At(c, cell).received + 1)]
  }

  function Sent(c: Counters, cell: Cell): (c': Counters)
  {
    c[cell := At(c, cell).(sent := At(c, cell).sent + 1)]
  }

  function Discarded(c: Counters, cell: Cell): (c': Counters)
  {
    c[cell := At(c, cell).(discarded := At(c, cell).discarded + 1)]
  }

  function CellOf(m: Message): (c: Cell)
  {
    Cell(m.connection, m.kind)
  }

  // --------------------------------------------------------- one attempt

  /** What `send` may return: a number of octets, zero with `errno` clear or not,
      EAGAIN, or another error. */
  datatype Outcome = Wrote(n: nat) | WroteNothing(errnoClear: bool) | WouldBlock | Failed

  predicate Possible(m: Message, o: Outcome)
  {
    o.Wrote? ==> 0 < o.n <= |m.bytes| - m.sent
  }

  /** How the outcome is judged: the message counts as sent, is kept, is kept and
      counted as discarded, or is dropped. */
  datatype Verdict = Done | Kept | Stalled | Lost

  function Judge(m: Message, o: Outcome): (v: Verdict)
  {
    match o
    case Wrote(n) => if n == |m.bytes| - m.sent then Done else Kept
    case WroteNothing(clear) => if clear then Done else Kept
    case WouldBlock => Stalled
    case Failed => Lost
  }

  function QueueAfter(q: seq<Message>, o: Outcome): (q': seq<Message>)
    requires q != [] && Possible(q[0], o)
  {
    match Judge(q[0], o)
    case Done => q[1..]
    case Lost => q[1..]
    case Stalled => q
    case Kept => if o.Wrote? then [q[0].(sent := q[0].sent + o.n)] + q[1..] else q
  }

  /** A blocked attempt is counted as a discard, though the message stays. */
  function CountersAfter(c: Counters, m: Message, o: Outcome): (c': Counters)
  {
    match Judge(m, o)
    case Done => Sent(c, CellOf(m))
    case Kept => c
    case Stalled => Discarded(c, CellOf(m))
    case Lost => Discarded(c, CellOf(m))
  }

  /** The attempt ends with the message counted as sent: its last octet is written, or none is
      with `errno` clear. */
  predicate Completes(m: Message, o: Outcome)
  {
    (o.Wrote? && m.sent + o.n == |m.bytes|) || o == WroteNothing(true)
  }

  /** The attempt ends with an error, EAGAIN included. */
  predicate Errs(o: Outcome)
  {
    o.Failed? || o.WouldBlock?
  }

  /** What one attempt on a message adds to the counters: one to those sent of its connection and
      kind if it completes, one to those discarded if it errs, and nothing else. */
  predicate Counted(c: Counters, c': Counters, m: Message, o: Outcome, cell: Cell)
  {
    var a, b := At(c, cell), At(c', cell);
    && b.received == a.received
    && b.sent == a.sent + (if cell == CellOf(m) && Completes(m, o) then 1 else 0)
    && b.discarded == a.discarded + (if cell == CellOf(m) && Errs(o) then 1 else 0)
  }

  lemma AttemptCounted(c: Counters, m: Message, o: Outcome, cell: Cell)
    requires Possible(m, o)
    ensures Counted(c, CountersAfter(c, m, o), m, o, cell)
  {
  }

  function Written(m: Message, o: Outcome): (b: seq<Byte>)
    requires m.sent <= |m.bytes| && Possible(m, o)
  {
    if o.Wrote? then m.bytes[m.sent..m.sent + o.n] else []
  }

  // ------------------------------------------- the octets on a socket, over a run

  /** A socket's queue together with its history: the octets written so far; the
      messages that left the queue, each with the number of its octets written; and the
      messages accepted. */
  datatype Line = Line(queue: seq<Message>, written: seq<Byte>, gone: seq<(seq<Byte>, nat)>, accepted: seq<seq<Byte>>)

  datatype LineEvent = Accept(m: Message) | Attempt(o: Outcome)

  predicate Enabled(l: Line, e: LineEvent)
  {
    match e
    case Accept(m) => m.sent == 0 < |m.bytes|
    case Attempt(o) => l.queue != [] && Possible(l.queue[0], o)
  }

  predicate Sound(l: Line)
  {
    && (forall i :: 0 <= i < |l.queue| ==> l.queue[i].sent < |l.queue[i].bytes|)
    && (forall i :: 0 < i < |l.queue| ==> l.queue[i].sent == 0)
    && (forall i :: 0 <= i < |l.gone| ==> l.gone[i].1 <= |l.gone[i].0|)
  }

  function Apply(l: Line, e: LineEvent): (l': Line)
    requires Enabled(l, e) && Sound(l)
  {
    match e
    case Accept(m) => l.(queue := l.queue + [m], accepted := l.accepted + [m.bytes])
    case Attempt(o) =>
      var m := l.queue[0];
      var n := m.sent + |Written(m, o)|;
      l.(queue := QueueAfter(l.queue, o),
         written := l.written + Written(m, o),
         gone := if Judge(m, o) in {Done, Lost} then l.gone + [(m.bytes, n)] else l.gone)
  }

  function QueueBytes(q: seq<Message>): (b: seq<seq<Byte>>)
    ensures |b| == |q|
  {
    seq(|q|, i requires 0 <= i < |q| => q[i].bytes)
  }

  function GoneBytes(g: seq<(seq<Byte>, nat)>): (b: seq<seq<Byte>>)
    ensures |b| == |g|
  {
    seq(|g|, i requires 0 <= i < |g| => g[i].0)
  }

  /** The octets of the messages that left, as far as they were written. */
  function Out(g: seq<(seq<Byte>, nat)>): (b: seq<Byte>)
    requires forall i :: 0 <= i < |g| ==> g[i].1 <= |g[i].0|
  {
    if g == [] then []
    else Out(g[..|g| - 1]) + g[|g| - 1].0[..g[|g| - 1].1]
  }

  function FrontPart(q: seq<Message>): (b: seq<Byte>)
    requires q != [] ==> q[0].sent <= |q[0].bytes|
  {
    if q == [] then [] else q[0].bytes[..q[0].sent]
  }

  ghost predicate Exact(l: Line)
  {
    && Sound(l)
    && l.written == Out(l.gone) + FrontPart(l.queue)
    && l.accepted == GoneBytes(l.gone) + QueueBytes(l.queue)
  }

  lemma ApplyExact(l: Line, e: LineEvent)
    requires Exact(l) && Enabled(l, e)
    ensures Exact(Apply(l, e))
  {
    var l' := Apply(l, e);
    match e
    case Accept(m) =>
      assert QueueBytes(l'.queue) == QueueBytes(l.queue) + [m.bytes];
    case Attempt(o) =>
      AttemptExact(l, o);
  }

  lemma AttemptExact(l: Line, o: Outcome)
    requires Exact(l) && Enabled(l, Attempt(o))
    ensures Exact(Apply(l, Attempt(o)))
  {
    if Judge(l.queue[0], o) in {Done, Lost} {
      LeaveExact(l, o);
    } else {
      StayExact(l, o);
    }
  }

  lemma PartWritten(m: Message, o: Outcome)
    requires m.sent <= |m.bytes| && Possible(m, o)
    ensures var n := m.sent + |Written(m, o)|;
            n <= |m.bytes| && m.bytes[..m.sent] + Written(m, o) == m.bytes[..n]
  {
  }

  lemma LeaveExact(l: Line, o: Outcome)
    requires Exact(l) && Enabled(l, Attempt(o)) && Judge(l.queue[0], o) in {Done, Lost}
    ensures Exact(Apply(l, Attempt(o)))
  {
    var m := l.queue[0];
    var w := Written(m, o);
    PartWritten(m, o);
    var l' := Line(l.queue[1..], l.written + w, l.gone + [(m.bytes, m.sent + |w|)], l.accepted);
    assert Apply(l, Attempt(o)) == l';
    TailExact(l, l', w);
  }

  lemma TailExact(l: Line, l': Line, w: seq<Byte>)
    requires Exact(l) && l.queue != [] && l.queue[0].sent + |w| <= |l.queue[0].bytes|
    requires l.queue[0].bytes[..l.queue[0].sent] + w == l.queue[0].bytes[..l.queue[0].sent + |w|]
    requires l' == Line(l.queue[1..], l.written + w, l.gone + [(l.queue[0].bytes, l.queue[0].sent + |w|)], l.accepted)
    ensures Exact(l')
  {
    Leaves(l.gone, l.queue, l.queue[0].sent + |w|);
    TailSound(l, l');
    TailWritten(l, l', w);
  }

  lemma TailSound(l: Line, l': Line)
    requires Sound(l) && l.queue != [] && l'.queue == l.queue[1..] && |l'.gone| == |l.gone| + 1
    requires l'.gone[..|l.gone|] == l.gone && l'.gone[|l.gone|].1 <= |l'.gone[|l.gone|].0|
    ensures Sound(l')
  {
    assert forall i :: 0 <= i < |l.gone| ==> l'.gone[i] == l'.gone[..|l.gone|][i];
    assert forall i :: 0 <= i < |l'.queue| ==> l'.queue[i] == l.queue[i + 1];
  }

  lemma TailWritten(l: Line, l': Line, w: seq<Byte>)
    requires Exact(l) && Sound(l') && l.queue != [] && l'.queue == l.queue[1..] && l'.written == l.written + w
    requires l.queue[0].sent + |w| <= |l.queue[0].bytes|
    requires l.queue[0].bytes[..l.queue[0].sent] + w == l.queue[0].bytes[..l.queue[0].sent + |w|]
    requires Out(l'.gone) == Out(l.gone) + l.queue[0].bytes[..l.queue[0].sent + |w|]
    ensures l'.written == Out(l'.gone) + FrontPart(l'.queue)
  {
    var a, b := Out(l.gone), l.queue[0].bytes[..l.queue[0].sent];
    Regrouped(a, b, w, Out(l'.gone));
    assert FrontPart(l'.queue) == [] by {
      assert l'.queue != [] ==> l'.queue[0] == l.queue[1] && l'.queue[0].bytes[..0] == [];
    }
  }

  lemma Regrouped(a: seq<Byte>, b: seq<Byte>, w: seq<Byte>, out: seq<Byte>)
    requires out == a + (b + w)
    ensures (a + b) + w == out + []
  {
  }

  lemma StayExact(l: Line, o: Outcome)
    requires Exact(l) && Enabled(l, Attempt(o)) && Judge(l.queue[0], o) in {Kept, Stalled}
    ensures Exact(Apply(l, Attempt(o)))
  {
    var m := l.queue[0];
    var n := m.sent + |Written(m, o)|;
    PartWritten(m, o);
    var m' := m.(sent := n);
    var q' := [m'] + l.queue[1..];
    assert q' == QueueAfter(l.queue, o);
    var l' := Line(q', l.written + Written(m, o), l.gone, l.accepted);
    assert Apply(l, Attempt(o)) == l';
    assert QueueBytes(q') == QueueBytes(l.queue);
    assert l'.written == Out(l.gone) + (m.bytes[..m.sent] + Written(m, o));
  }

  /** The message in front leaves the queue with `n` octets written. */
  lemma Leaves(g: seq<(seq<Byte>, nat)>, q: seq<Message>, n: nat)
    requires q != [] && n <= |q[0].bytes|
    requires forall i :: 0 <= i < |g| ==> g[i].1 <= |g[i].0|
    ensures Out(g + [(q[0].bytes, n)]) == Out(g) + q[0].bytes[..n]
    ensures GoneBytes(g + [(q[0].bytes, n)]) + QueueBytes(q[1..]) == GoneBytes(g) + QueueBytes(q)
  {
    var g' := g + [(q[0].bytes, n)];
    assert g'[..|g'| - 1] == g;
  }

  ghost predicate EnabledRun(l: Line, events: seq<LineEvent>)
    requires Sound(l)
    decreases |events|
  {
    events != [] ==> Enabled(l, events[0]) && Sound(Apply(l, events[0])) && EnabledRun(Apply(l, events[0]), events[1..])
  }

  ghost function Run(l: Line, events: seq<LineEvent>): (l': Line)
    requires Sound(l) && EnabledRun(l, events)
    decreases |events|
  {
    if events == [] then l else Run(Apply(l, events[0]), events[1..])
  }

  /** In every run the octets on the socket are, in the order of acceptance, a leading
      part of each message that left the queue and of the one in front of it. */
  lemma {:induction false} RunExact(l: Line, events: seq<LineEvent>)
    requires Exact(l) && EnabledRun(l, events)
    ensures Exact(Run(l, events))
    decreases |events|
  {
    if events != [] {
      ApplyExact(l, events[0]);
      RunExact(Apply(l, events[0]), events[1..]);
    }
  }

  /** Outcomes that take a message off the queue without its last octet. */
  predicate Drops(e: LineEvent)
  {
    e.Attempt? && (e.o.Failed? || e.o == WroteNothing(true))
  }

  predicate AllWhole(g: seq<(seq<Byte>, nat)>)
  {
    forall i :: 0 <= i < |g| ==> g[i].1 == |g[i].0|
  }

  lemma {:induction false} NothingDropped(l: Line, events: seq<LineEvent>)
    requires Sound(l) && EnabledRun(l, events) && AllWhole(l.gone)
    requires forall i :: 0 <= i < |events| ==> !Drops(events[i])
    ensures AllWhole(Run(l, events).gone)
    decreases |events|
  {
    if events != [] {
      NothingDropped(Apply(l, events[0]), events[1..]);
    }
  }

  lemma {:induction false} WholeMessages(g: seq<(seq<Byte>, nat)>)
    requires AllWhole(g)
    ensures Out(g) == Concat(GoneBytes(g))
  {
    if g != [] {
      var n := |g| - 1;
      var h, last := g[..n], g[n].0;
      WholeMessages(h);
      assert GoneBytes(g) == GoneBytes(h) + [last];
      ConcatAppend(GoneBytes(h), [last]);
      ConcatOne(last);
      assert last[..g[n].1] == last;
    }
  }

  /** The first message of a non-empty list starts its concatenation. */
  lemma ConcatFront(b: seq<seq<Byte>>, n: nat)
    requires b != [] && n <= |b[0]|
    ensures b[0][..n] <= Concat(b)
  {
  }

  /** Without a dropping outcome, what has been written on a socket is at every moment a
      prefix of the accepted messages put end to end: no gap, no duplicate, no change of
      order, however many calls and partial writes it took. */
  lemma WrittenIsPrefix(events: seq<LineEvent>)
    requires EnabledRun(Line([], [], [], []), events)
    requires forall i :: 0 <= i < |events| ==> !Drops(events[i])
    ensures var l := Run(Line([], [], [], []), events);
            l.written <= Concat(l.accepted)
  {
    var l0 := Line([], [], [], []);
    assert Exact(l0) by {
      assert GoneBytes([]) + QueueBytes([]) == [];
    }
    RunExact(l0, events);
    NothingDropped(l0, events);
    PrefixOfAccepted(Run(l0, events));
  }

  /** With drops it holds up to the first one, and for as long as nothing is written behind
      it, whatever is accepted or dropped meanwhile. */
  lemma WrittenUntilDrop(before: seq<LineEvent>, later: seq<LineEvent>)
    requires EnabledRun(Line([], [], [], []), before + later)
    requires forall i :: 0 <= i < |before| ==> !Drops(before[i])
    ensures EnabledRun(Line([], [], [], []), before)
    ensures var l0 := Line([], [], [], []);
            Run(l0, before + later).written == Run(l0, before).written ==>
              Run(l0, before + later).written <= Concat(Run(l0, before + later).accepted)
  {
    var l0 := Line([], [], [], []);
    LineSplit(l0, before, later);
    WrittenIsPrefix(before);
    var l := Run(l0, before);
    OnlyGrows(l, later);
    var more := Run(l, later).accepted[|l.accepted|..];
    assert Run(l, later).accepted == l.accepted + more;
    ConcatAppend(l.accepted, more);
  }

  lemma {:induction false} LineSplit(l: Line, a: seq<LineEvent>, b: seq<LineEvent>)
    requires Sound(l) && EnabledRun(l, a + b)
    ensures EnabledRun(l, a) && Sound(Run(l, a)) && EnabledRun(Run(l, a), b)
    ensures Run(l, a + b) == Run(Run(l, a), b)
    decreases |a|
  {
    if a == [] {
      assert a + b == b;
    } else {
      assert (a + b)[1..] == a[1..] + b;
      LineSplit(Apply(l, a[0]), a[1..], b);
    }
  }

  lemma {:induction false} OnlyGrows(l: Line, events: seq<LineEvent>)
    requires Sound(l) && EnabledRun(l, events)
    ensures l.accepted <= Run(l, events).accepted
    decreases |events|
  {
    if events != [] {
      OnlyGrows(Apply(l, events[0]), events[1..]);
    }
  }

  lemma PrefixOfAccepted(l: Line)
    requires Exact(l) && AllWhole(l.gone)
    ensures l.written <= Concat(l.accepted)
  {
    WholeMessages(l.gone);
    ConcatAppend(GoneBytes(l.gone), QueueBytes(l.queue));
    if l.queue != [] {
      ConcatFront(QueueBytes(l.queue), l.queue[0].sent);
      PrefixAppend(Out(l.gone), FrontPart(l.queue), Concat(QueueBytes(l.queue)));
    } else {
      assert QueueBytes(l.queue) == [];
    }
  }

  lemma PrefixAppend(a: seq<Byte>, b: seq<Byte>, c: seq<Byte>)
    requires b <= c
    ensures a + b <= a + c
  {
    assert a + c == a + b + c[|b|..];
  }

  function GapEvents(a: Message, b: Message): (events: seq<LineEvent>)
  {
    [Accept(a)] + ([Accept(b)] + ([Attempt(Failed)] + ([Attempt(Wrote(|b.bytes|))] + [])))
  }

  /** A dropping outcome does leave a gap: after a hard error in front, the next message
      follows without the first. */
  lemma DropLeavesGap(a: Message, b: Message)
    requires a.sent == 0 < |a.bytes| && b.sent == 0 < |b.bytes| && a.bytes[0] != b.bytes[0]
    ensures EnabledRun(Line([], [], [], []), GapEvents(a, b))
    ensures Run(Line([], [], [], []), GapEvents(a, b)).written == b.bytes
    ensures !(b.bytes <= Concat([a.bytes, b.bytes]))
  {
    var l0 := Line([], [], [], []);
    var l1 := Apply(l0, Accept(a));
    var l2 := Apply(l1, Accept(b));
    var l3 := Apply(l2, Attempt(Failed));
    GapStates(a, b, l3);
    var e4 := [Attempt(Wrote(|b.bytes|))] + [];
    var e3 := [Attempt(Failed)] + e4;
    var e2 := [Accept(b)] + e3;
    RunStep(l3, Attempt(Wrote(|b.bytes|)), []);
    RunStep(l2, Attempt(Failed), e4);
    RunStep(l1, Accept(b), e3);
    RunStep(l0, Accept(a), e2);
    NotPrefix(a.bytes, b.bytes);
  }

  lemma GapStates(a: Message, b: Message, l: Line)
    requires a.sent == 0 < |a.bytes| && b.sent == 0 < |b.bytes|
    requires l == Apply(Apply(Apply(Line([], [], [], []), Accept(a)), Accept(b)), Attempt(Failed))
    ensures l.queue == [b] && Sound(l) && l.written == []
    ensures Apply(l, Attempt(Wrote(|b.bytes|))).queue == []
    ensures Apply(l, Attempt(Wrote(|b.bytes|))).written == b.bytes
  {
    var l1 := Apply(Line([], [], [], []), Accept(a));
    var l2 := Apply(l1, Accept(b));
    assert l1.queue == [a] && l2.queue == [a, b];
  }

  lemma RunStep(l: Line, e: LineEvent, events: seq<LineEvent>)
    requires Sound(l) && Enabled(l, e) && Sound(Apply(l, e)) && EnabledRun(Apply(l, e), events)
    ensures EnabledRun(l, [e] + events) && Run(l, [e] + events) == Run(Apply(l, e), events)
  {
    assert ([e] + events)[1..] == events;
  }

  lemma NotPrefix(a: seq<Byte>, b: seq<Byte>)
    requires a != [] && b != [] && a[0] != b[0]
    ensures !(b <= Concat([a, b]))
  {
    ConcatFront([a, b], 1);
  }

  // ------------------------------------------------------- whole calls

  /** The effect of one call of `sendPendingMessage` when `send` answers with `os`, as
      long as it is asked: what is left, the counters, how many attempts were made, the
      octets written, the result, and the connection found broken, if any. */
  datatype Drained = Drained(queue: seq<Message>, counters: Counters, attempts: nat, written: seq<Byte>,
                             result: bool, broken: Option<nat>)

  /** The answers fit the questions, and there are enough of them. */
  ghost predicate Script(q: seq<Message>, os: seq<Outcome>)
    decreases |q|
  {
    q == [] || (os != [] && q[0].sent < |q[0].bytes| && Possible(q[0], os[0])
                && (Judge(q[0], os[0]) == Done ==> Script(q[1..], os[1..])))
  }

  ghost function Drain(q: seq<Message>, c: Counters, os: seq<Outcome>, last: bool): (d: Drained)
    requires Script(q, os)
    decreases |q|
  {
    if q == [] then Drained(q, c, 0, [], last, None)
    else
      var m, o := q[0], os[0];
      var q', c', w := QueueAfter(q, o), CountersAfter(c, m, o), Written(m, o);
      match Judge(m, o)
      case Done =>
        var d := Drain(q', c', os[1..], o.Wrote?);
        d.(attempts := d.attempts + 1, written := w + d.written)
      case Kept => Drained(q', c', 1, w, o.Wrote?, None)
      case Stalled => Drained(q', c', 1, w, true, None)
      case Lost =>
        Drained(q', c', 1, w, false, if m.kind in {RequestToServer, AnswerToServer} then Some(m.connection) else None)
  }

  /** The same outcome of two calls. */
  predicate SameEnd(d: Drained, e: Drained)
  {
    d.queue == e.queue && d.counters == e.counters && d.result == e.result && d.broken == e.broken
  }

  /** How many of the first `n` attempts of a call, each on the next message, are on messages of
      this cell and complete, or err. */
  function Completions(q: seq<Message>, os: seq<Outcome>, n: nat, cell: Cell): (k: nat)
    requires n <= |q| && n <= |os|
  {
    if n == 0 then 0
    else Completions(q, os, n - 1, cell)
         + (if CellOf(q[n - 1]) == cell && Completes(q[n - 1], os[n - 1]) then 1 else 0)
  }

  function Errors(q: seq<Message>, os: seq<Outcome>, n: nat, cell: Cell): (k: nat)
    requires n <= |q| && n <= |os|
  {
    if n == 0 then 0
    else Errors(q, os, n - 1, cell) + (if CellOf(q[n - 1]) == cell && Errs(os[n - 1]) then 1 else 0)
  }

  lemma {:induction false} CountsShift(q: seq<Message>, os: seq<Outcome>, n: nat, cell: Cell)
    requires 1 <= n <= |q| && n <= |os|
    ensures Completions(q, os, n, cell)
            == Completions(q[1..], os[1..], n - 1, cell)
               + (if CellOf(q[0]) == cell && Completes(q[0], os[0]) then 1 else 0)
    ensures Errors(q, os, n, cell)
            == Errors(q[1..], os[1..], n - 1, cell) + (if CellOf(q[0]) == cell && Errs(os[0]) then 1 else 0)
    decreases n
  {
    if n > 1 {
      CountsShift(q, os, n - 1, cell);
    }
  }

  /** The attempts of a call and its end: every attempt but the last completes and takes the next
      message; the result is that of the last; and the connection is found broken iff that failed
      towards a server. */
  predicate EndsAs(q: seq<Message>, os: seq<Outcome>, last: bool, d: Drained)
  {
    var n := d.attempts;
    && n <= |q| && n <= |os| && (n == 0 <==> q == [])
    && (forall i :: 0 <= i < n - 1 ==> Completes(q[i], os[i]))
    && d.result == (if n == 0 then last else os[n - 1].Wrote? || os[n - 1].WouldBlock?)
    && d.broken == (if n > 0 && os[n - 1].Failed? && q[n - 1].kind in {RequestToServer, AnswerToServer}
                    then Some(q[n - 1].connection) else None)
    && (n > 0 && n < |q| ==> !Completes(q[n - 1], os[n - 1]))
  }

  /** The counters grow by the attempts that complete and by those that err. */
  predicate CountsAs(q: seq<Message>, c: Counters, os: seq<Outcome>, d: Drained, cell: Cell)
  {
    && d.attempts <= |q| && d.attempts <= |os|
    && At(d.counters, cell).received == At(c, cell).received
    && At(d.counters, cell).sent == At(c, cell).sent + Completions(q, os, d.attempts, cell)
    && At(d.counters, cell).discarded == At(c, cell).discarded + Errors(q, os, d.attempts, cell)
  }

  lemma {:induction false} CallEnds(q: seq<Message>, c: Counters, os: seq<Outcome>, last: bool)
    requires Script(q, os)
    ensures EndsAs(q, os, last, Drain(q, c, os, last))
    decreases |q|
  {
    if q != [] && Judge(q[0], os[0]) == Done {
      CallEnds(q[1..], CountersAfter(c, q[0], os[0]), os[1..], os[0].Wrote?);
    }
  }

  lemma {:induction false} CallCounts(q: seq<Message>, c: Counters, os: seq<Outcome>, last: bool, cell: Cell)
    requires Script(q, os)
    ensures CountsAs(q, c, os, Drain(q, c, os, last), cell)
    decreases |q|
  {
    if q != [] {
      var m, o, d := q[0], os[0], Drain(q, c, os, last);
      AttemptCounted(c, m, o, cell);
      if Judge(m, o) == Done {
        CallCounts(q[1..], CountersAfter(c, m, o), os[1..], o.Wrote?, cell);
        CountsShift(q, os, d.attempts, cell);
      } else {
        CountsShift(q, os, 1, cell);
      }
    }
  }

  /** What a whole call does. */
  lemma CallExactly(q: seq<Message>, c: Counters, os: seq<Outcome>, last: bool, cell: Cell)
    requires Script(q, os)
    ensures EndsAs(q, os, last, Drain(q, c, os, last)) && CountsAs(q, c, os, Drain(q, c, os, last), cell)
  {
    CallEnds(q, c, os, last);
    CallCounts(q, c, os, last, cell);
  }

  function Attempts(os: seq<Outcome>): (events: seq<LineEvent>)
    ensures |events| == |os|
  {
    seq(|os|, i requires 0 <= i < |os| => Attempt(os[i]))
  }

  ghost predicate IsRow(l: Line, d: Drained, events: seq<LineEvent>)
    requires Sound(l)
  {
    && |events| == d.attempts <= |l.queue|
    && EnabledRun(l, events)
    && Run(l, events).queue == d.queue
    && Run(l, events).written == l.written + d.written
  }

  /** A call is nothing but a row of attempts, so what holds of every run of attempts
      and acceptances holds of every sequence of calls; and it makes at most one attempt
      for each message it finds. */
  lemma {:induction false} DrainIsAttempts(l: Line, c: Counters, os: seq<Outcome>, last: bool)
    requires Sound(l) && Script(l.queue, os)
    ensures var d := Drain(l.queue, c, os, last);
            d.attempts <= |os| && IsRow(l, d, Attempts(os[..d.attempts]))
    decreases |l.queue|
  {
    if l.queue != [] {
      var m, o, d := l.queue[0], os[0], Drain(l.queue, c, os, last);
      SoundStep(l, o);
      if Judge(m, o) == Done {
        var l', c', rest := Apply(l, Attempt(o)), CountersAfter(c, m, o), os[1..];
        var d' := Drain(l'.queue, c', rest, o.Wrote?);
        DrainIsAttempts(l', c', rest, o.Wrote?);
        OneMore(l, o, d', d, Attempts(rest[..d'.attempts]));
        assert Attempts(os[..d.attempts]) == [Attempt(o)] + Attempts(rest[..d'.attempts]);
      } else {
        RunStep(l, Attempt(o), []);
        assert Attempts(os[..1]) == [Attempt(o)] + [];
      }
    }
  }

  lemma OneMore(l: Line, o: Outcome, d': Drained, d: Drained, events: seq<LineEvent>)
    requires Sound(l) && l.queue != [] && Possible(l.queue[0], o) && Judge(l.queue[0], o) == Done
    requires Sound(Apply(l, Attempt(o))) && IsRow(Apply(l, Attempt(o)), d', events)
    requires d.attempts == d'.attempts + 1 && d.queue == d'.queue
    requires d.written == Written(l.queue[0], o) + d'.written
    ensures IsRow(l, d, [Attempt(o)] + events)
  {
    RunStep(l, Attempt(o), events);
    var w := Written(l.queue[0], o);
    assert (l.written + w) + d'.written == l.written + (w + d'.written);
  }

  lemma SoundStep(l: Line, o: Outcome)
    requires Sound(l) && l.queue != [] && Possible(l.queue[0], o)
    ensures Sound(Apply(l, Attempt(o)))
    ensures Apply(l, Attempt(o)).queue == QueueAfter(l.queue, o)
  {
  }

  class PendingMessages {
    var pending: map<int, seq<Message>>     // m_pendingToSend
    var counters: Counters                  // the statistics in v_connections
    var broken: set<nat>                    // connections whose status was set to BROKEN

    constructor ()
      ensures pending == map[] && counters == map[] && broken == {}
    {
      pending, counters, broken := map[], map[], {};
    }

    /** `addMessageAsPending`. A queue is full when it holds more than the maximum. A message
        that is rejected is counted as discarded, and so it will be by the caller. */
    method AddMessageAsPending(socket: int, message: Message, maxSize: nat) returns (result: bool)
      modifies this
      ensures broken == old(broken)
      ensures result <==> socket in old(pending) && |old(pending)[socket]| <= maxSize
      ensures pending == if result then old(pending)[socket := old(pending)[socket] + [message]] else old(pending)
      ensures counters == if socket in old(pending) && !result then Discarded(old(counters), CellOf(message))
                          else old(counters)
    {
      result := false;
      if socket in pending {
        var size := |pending[socket]|;
        if size > maxSize {
          counters := Discarded(counters, CellOf(message));
        } else {
          pending := pending[socket := pending[socket] + [message]];
          result := true;
        }
      }
    }

    /** One attempt on the message in front. */
    method SendOne(socket: int, o: Outcome) returns (result: bool, keepSending: bool)
      requires socket in pending && pending[socket] != []
      requires var m := pending[socket][0]; m.sent < |m.bytes| && Possible(m, o)
      modifies this
      ensures pending == old(pending)[socket := QueueAfter(old(pending)[socket], o)]
      ensures var m := old(pending)[socket][0];
              && counters == CountersAfter(old(counters), m, o)
              && (keepSending <==> Judge(m, o) == Done)
              && broken == old(broken) + (if o.Failed? && m.kind in {RequestToServer, AnswerToServer}
                                          then {m.connection} else {})
      ensures result <==> o.Wrote? || o.WouldBlock?
      ensures forall cell :: Counted(old(counters), counters, old(pending)[socket][0], o, cell)
    {
      var message := pending[socket][0];
      var toSend := |message.bytes| - message.sent;
      var res := if o.Wrote? then o.n else if o.WroteNothing? then 0 else -1;
      var clear := res == 0 && o.errnoClear;
      result, keepSending := res > 0, true;
      if res == toSend || res == -1 || clear {
        if res > 0 || clear {
          counters := Sent(counters, CellOf(message));
        } else {
          counters := Discarded(counters, CellOf(message));
        }
        if res == -1 {
          keepSending := false;
          if o.WouldBlock? {
            result := true;
            return;
          }
          if message.kind in {RequestToServer, AnswerToServer} {
            broken := broken + {message.connection};
          }
        }
        pending := pending[socket := pending[socket][1..]];
      } else {
        ghost var q := pending[socket];
        assert q == [message] + q[1..];
        pending := pending[socket := [message.(sent := message.sent + res)] + pending[socket][1..]];
        keepSending := false;
      }
    }

    /** `sendPendingMessage`: messages are sent one after the other until the queue is
        empty, one is sent only in part, or an attempt fails. */
    method SendPendingMessage(socket: int, outcomes: seq<Outcome>) returns (result: bool)
      requires socket in pending ==> Script(pending[socket], outcomes)
      modifies this
      ensures socket !in old(pending) ==> !result && pending == old(pending)
                                          && counters == old(counters) && broken == old(broken)
      ensures socket in old(pending) ==>
                var d := Drain(old(pending)[socket], old(counters), outcomes, false);
                && pending == old(pending)[socket := d.queue]
                && counters == d.counters && result == d.result
                && broken == old(broken) + (if d.broken.Some? then {d.broken.value} else {})
    {
      result := false;
      if socket !in pending {
        return;
      }
      ghost var goal := Drain(pending[socket], counters, outcomes, false);
      var keepSending, next := true, 0;
      while pending[socket] != [] && keepSending
        invariant socket in pending && next <= |outcomes|
        invariant keepSending ==> UnderWay(socket, old(pending), old(broken), outcomes[next..], result, goal)
        invariant !keepSending ==> AtGoal(socket, old(pending), old(broken), result, goal)
        decreases |pending[socket]|, keepSending
      {
        ghost var rest := outcomes[next..];
        assert rest[0] == outcomes[next] && rest[1..] == outcomes[next + 1..];
        result, keepSending := Round(socket, outcomes[next], rest, result, old(pending), old(broken), goal);
        next := next + 1;
      }
    }

    /** What is left to do leads to `goal`; only the queue of this socket has changed so far. */
    ghost predicate UnderWay(socket: int, was: map<int, seq<Message>>, hurt: set<nat>,
                             rest: seq<Outcome>, last: bool, goal: Drained)
      reads this
    {
      && socket in pending && pending == was[socket := pending[socket]] && broken == hurt
      && Script(pending[socket], rest) && SameEnd(Drain(pending[socket], counters, rest, last), goal)
    }

    ghost predicate AtGoal(socket: int, was: map<int, seq<Message>>, hurt: set<nat>, result: bool, goal: Drained)
      reads this
    {
      && pending == was[socket := goal.queue] && counters == goal.counters && result == goal.result
      && broken == hurt + (if goal.broken.Some? then {goal.broken.value} else {})
    }

    /** One round of the loop. */
    method Round(socket: int, o: Outcome, ghost rest: seq<Outcome>, ghost last: bool,
                 ghost was: map<int, seq<Message>>, ghost hurt: set<nat>, ghost goal: Drained)
      returns (result: bool, keepSending: bool)
      requires UnderWay(socket, was, hurt, rest, last, goal) && pending[socket] != [] && o == rest[0]
      modifies this
      ensures socket in pending && (keepSending ==> |pending[socket]| < |old(pending)[socket]|)
      ensures |pending[socket]| <= |old(pending)[socket]|
      ensures keepSending ==> UnderWay(socket, was, hurt, rest[1..], result, goal)
      ensures !keepSending ==> AtGoal(socket, was, hurt, result, goal)
    {
      ghost var q := pending[socket];
      result, keepSending := SendOne(socket, o);
      assert pending == was[socket := QueueAfter(q, o)];
    }

    /** `cleanPendingMessages`: the queue is removed, the transaction of every message in
        it is released, and each message is counted as discarded. */
    method CleanPendingMessages(socket: int, used: array<bool>)
      modifies this, used
      ensures broken == old(broken)
      ensures pending == old(pending) - {socket}
      ensures var q := if socket in old(pending) then old(pending)[socket] else [];
              counters == AllDiscarded(old(counters), q) && used[..] == AllReleased(old(used[..]), q)
    {
      if socket in pending {
        var queue := pending[socket];
        ghost var all := queue;
        pending := pending - {socket};
        while queue != []
          invariant pending == old(pending) - {socket} && broken == old(broken)
          invariant AllDiscarded(counters, queue) == AllDiscarded(old(counters), all)
          invariant AllReleased(used[..], queue) == AllReleased(old(used[..]), all)
        {
          var message := queue[0];
          if message.transaction > -1 && message.transaction < used.Length {
            used[message.transaction] := false;
          }
          queue := queue[1..];
          counters := Discarded(counters, CellOf(message));
        }
      }
    }
  }

  function AllDiscarded(c: Counters, q: seq<Message>): (c': Counters)
    decreases |q|
  {
    if q == [] then c else AllDiscarded(Discarded(c, CellOf(q[0])), q[1..])
  }

  /** How many messages of a list are of this cell. */
  function InCell(q: seq<Message>, cell: Cell): (n: nat)
  {
    if q == [] then 0 else (if CellOf(q[0]) == cell then 1 else 0) + InCell(q[1..], cell)
  }

  /** Each removed message is counted once, as discarded. */
  lemma {:induction false} DiscardedExactly(c: Counters, q: seq<Message>, cell: Cell)
    ensures var a, b := At(c, cell), At(AllDiscarded(c, q), cell);
            b.received == a.received && b.sent == a.sent && b.discarded == a.discarded + InCell(q, cell)
    decreases |q|
  {
    if q != [] {
      DiscardedExactly(Discarded(c, CellOf(q[0])), q[1..], cell);
    }
  }

  function Released(used: seq<bool>, transaction: int): (used': seq<bool>)
    ensures |used'| == |used|
  {
    if 0 <= transaction < |used| then used[transaction := false] else used
  }

  function AllReleased(used: seq<bool>, q: seq<Message>): (used': seq<bool>)
    ensures |used'| == |used|
    decreases |q|
  {
    if q == [] then used else AllReleased(Released(used, q[0].transaction), q[1..])
  }

  /** Exactly the transactions of the removed messages are free afterwards that were not
      before. */
  lemma {:induction false} ReleasedExactly(used: seq<bool>, q: seq<Message>, s: nat)
    requires s < |used|
    ensures AllReleased(used, q)[s] <==> used[s] && forall i :: 0 <= i < |q| ==> q[i].transaction != s
    decreases |q|
  {
    if q != [] {
      ReleasedExactly(Released(used, q[0].transaction), q[1..], s);
      assert forall i :: 1 <= i < |q| ==> q[i] == q[1..][i - 1];
    }
  }
}
