/** The result-code statistics: how an answer is counted (DiaProxy/source/DiaThread.cpp),
    how the report thread collects the counters and adds them to the totals
    (DiaProxy/source/ReportManagerThread.cpp), and the reset of the totals
    (DiaProxy/source/RemoteThread.cpp). All counters are 32-bit and wrap. */
module Report {
  import opened Octets
  import opened Codec
  import opened Walkers

  const WRAP: nat := 0x1_0000_0000
  const DIAMETER_TOO_BUSY: int := 3004
  const DIAMETER_UNABLE_TO_COMPLY: int := 5012

  datatype Kind = Success | Busy | Unable | Other | RequestSent

  datatype Tallies = Tallies(success: Word, busy: Word, unable: Word, other: Word, requestSent: Word)
  {
    function Of(k: Kind): (n: Word)
    {
      match k
      case Success => success
      case Busy => busy
      case Unable => unable
      case Other => other
      case RequestSent => requestSent
    }
  }

  const NONE := Tallies(0, 0, 0, 0, 0)

  function Plus(a: Word, b: Word): (c: Word)
  {
    (a + b) % WRAP
  }

  // --------------------------------------------------- one kind of event

  /** What happens to one of the five counters: the connections' residues, what the report
      thread holds between its two critical sections, and the total. The last two fields
      are history: what resets cleared, and how often a sum wrapped around. */
  datatype Column = Column(residues: seq<Word>, hand: Option<Word>, total: Word, cleared: nat, wraps: nat)

  datatype Event = Counted(connection: nat, kind: Kind) | Collected | Accumulated | Reset

  function Sum(s: seq<Word>): (n: nat)
  {
    if s == [] then 0 else Sum(s[..|s| - 1]) + s[|s| - 1]
  }

  predicate Enabled(c: Column, e: Event)
  {
    match e
    case Counted(i, _) => i < |c.residues|
    case Collected => c.hand == None
    case Accumulated => c.hand.Some?
    case Reset => true
  }

  function Advance(c: Column, e: Event, k: Kind): (d: Column)
    requires Enabled(c, e)
  {
    match e
    case Counted(i, kind) =>
      if kind != k then c
      else c.(residues := c.residues[i := Plus(c.residues[i], 1)], wraps := c.wraps + (c.residues[i] + 1) / WRAP)
    case Collected =>
      c.(residues := Zeros(|c.residues|),
         hand := Some(Sum(c.residues) % WRAP),
         wraps := c.wraps + Sum(c.residues) / WRAP)
    case Accumulated =>
      c.(hand := None, total := Plus(c.total, c.hand.value), wraps := c.wraps + (c.total + c.hand.value) / WRAP)
    case Reset =>
      c.(total := 0, cleared := c.cleared + c.total)
  }

  function Held(c: Column): (n: nat)
  {
    if c.hand.Some? then c.hand.value else 0
  }

  function Fresh(n: nat): (c: Column)
  {
    Column(Zeros(n), None, 0, 0, 0)
  }

  predicate IsRun(c: Column, events: seq<Event>, k: Kind)
    decreases |events|
  {
    events == [] || (Enabled(c, events[0]) && IsRun(Advance(c, events[0], k), events[1..], k))
  }

  function After(c: Column, events: seq<Event>, k: Kind): (d: Column)
    requires IsRun(c, events, k)
    decreases |events|
  {
    if events == [] then c else After(Advance(c, events[0], k), events[1..], k)
  }

  /** How many events of a kind a run counts. */
  function Occurrences(events: seq<Event>, k: Kind): (n: nat)
  {
    if events == [] then 0
    else (if events[0].Counted? && events[0].kind == k then 1 else 0) + Occurrences(events[1..], k)
  }

  function Account(c: Column): (n: nat)
  {
    Sum(c.residues) + Held(c) + c.total + c.cleared + c.wraps * WRAP
  }

  lemma {:induction false} SumZeros(n: nat)
    ensures Sum(Zeros(n)) == 0
  {
    if n > 0 {
      assert Zeros(n)[..n - 1] == Zeros(n - 1);
      SumZeros(n - 1);
    }
  }

  lemma {:induction false} SumUpdate(s: seq<Word>, i: nat, x: Word)
    requires i < |s|
    ensures Sum(s[i := x]) == Sum(s) - s[i] + x
    decreases |s|
  {
    var n := |s| - 1;
    var t := s[i := x];
    if i < n {
      assert t[..n] == s[..n][i := x];
      SumUpdate(s[..n], i, x);
    } else {
      assert t[..n] == s[..n];
    }
  }

  lemma Divided(n: nat)
    ensures n == n % WRAP + n / WRAP * WRAP
  {
  }

  lemma StepAccount(c: Column, e: Event, k: Kind)
    requires Enabled(c, e)
    ensures Account(Advance(c, e, k)) == Account(c) + (if e.Counted? && e.kind == k then 1 else 0)
  {
    match e
    case Counted(i, kind) =>
      if kind == k {
        var n: nat := c.residues[i];
        SumUpdate(c.residues, i, Plus(n, 1));
        Divided(n + 1);
      }
    case Collected =>
      SumZeros(|c.residues|);
      Divided(Sum(c.residues));
    case Accumulated =>
      Divided(c.total + c.hand.value);
    case Reset =>
  }

  /** No event is lost or counted twice: for every interleaving of counting, collecting,
      accumulating and resetting, the events are the residues, what the report thread
      holds, the total, what was cleared, and 2^32 for every sum that wrapped around. */
  lemma {:induction false} Conserved(c: Column, events: seq<Event>, k: Kind)
    requires IsRun(c, events, k)
    ensures Account(After(c, events, k)) == Account(c) + Occurrences(events, k)
    decreases |events|
  {
    if events != [] {
      StepAccount(c, events[0], k);
      Conserved(Advance(c, events[0], k), events[1..], k);
    }
  }

  /** Below 2^32 events nothing wraps around, and the account is exact. */
  lemma NoneLost(n: nat, events: seq<Event>, k: Kind)
    requires IsRun(Fresh(n), events, k) && Occurrences(events, k) < WRAP
    ensures var c := After(Fresh(n), events, k);
            c.wraps == 0 && Occurrences(events, k) == Sum(c.residues) + Held(c) + c.total + c.cleared
  {
    SumZeros(n);
    Conserved(Fresh(n), events, k);
    var c := After(Fresh(n), events, k);
    assert c.wraps > 0 ==> c.wraps * WRAP >= WRAP;
  }

  /** What a total shows, as long as it was never reset: every event before the last
      collection that has been accumulated, and none after it. Events may fall between the
      two critical sections of a saving as well; they are not in it. */
  lemma TotalIsWhatWasCollected(n: nat, before: seq<Event>, mid: seq<Event>, later: seq<Event>, k: Kind)
    requires IsRun(Fresh(n), before + ([Collected] + (mid + ([Accumulated] + later))), k)
    requires Occurrences(before, k) < WRAP && Reset !in before
    requires Accumulated !in mid + later && Reset !in mid + later
    ensures After(Fresh(n), before + ([Collected] + (mid + ([Accumulated] + later))), k).total == Occurrences(before, k)
  {
    var tail := [Collected] + (mid + ([Accumulated] + later));
    RunSplit(Fresh(n), before, tail, k);
    var c := After(Fresh(n), before, k);
    NoneLost(n, before, k);
    NeverCleared(Fresh(n), before, k);
    AfterSaving(c, mid, later, k);
  }

  /** A collection and its accumulation add the residues at the time of the collection. */
  lemma AfterSaving(c: Column, mid: seq<Event>, later: seq<Event>, k: Kind)
    requires IsRun(c, [Collected] + (mid + ([Accumulated] + later)), k)
    requires Accumulated !in mid + later && Reset !in mid + later
    ensures After(c, [Collected] + (mid + ([Accumulated] + later)), k).total == Plus(c.total, Sum(c.residues) % WRAP)
  {
    var rest, tail := mid + ([Accumulated] + later), [Accumulated] + later;
    assert ([Collected] + rest)[1..] == rest;
    var d := Advance(c, Collected, k);
    RunSplit(d, mid, tail, k);
    HandKept(d, mid, k);
    ShownIsCleared(d, mid, k);
    var e := After(d, mid, k);
    assert tail[0] == Accumulated && tail[1..] == later;
    ShownIsCleared(Advance(e, Accumulated, k), later, k);
  }

  // ------------------------------------- every number, by the events alone

  /** The events of a kind counted before the last collection. */
  function Gathered(events: seq<Event>, k: Kind): (n: nat)
  {
    if events == [] then 0
    else
      var n := |events| - 1;
      if events[n].Collected? then Occurrences(events[..n], k) else Gathered(events[..n], k)
  }

  /** Those among them that have been accumulated. */
  function Saved(events: seq<Event>, k: Kind): (n: nat)
  {
    if events == [] then 0
    else
      var n := |events| - 1;
      if events[n].Accumulated? then Gathered(events[..n], k) else Saved(events[..n], k)
  }

  /** Those that had been when the totals were last reset. */
  function SavedAtReset(events: seq<Event>, k: Kind): (n: nat)
  {
    if events == [] then 0
    else
      var n := |events| - 1;
      if events[n].Reset? then Saved(events[..n], k) else SavedAtReset(events[..n], k)
  }

  /** The events of a kind on connection `i` since the last collection. */
  function Since(events: seq<Event>, i: nat, k: Kind): (n: nat)
  {
    if events == [] then 0
    else
      var n := |events| - 1;
      if events[n].Collected? then 0
      else Since(events[..n], i, k) + (if events[n] == Counted(i, k) then 1 else 0)
  }

  predicate ResiduesAre(c: Column, events: seq<Event>, k: Kind)
  {
    forall i :: 0 <= i < |c.residues| ==> c.residues[i] == Since(events, i, k)
  }

  predicate TotalIs(c: Column, events: seq<Event>, k: Kind)
  {
    && c.total == Saved(events, k) - SavedAtReset(events, k) && c.cleared == SavedAtReset(events, k)
    && (if c.hand.Some? then c.hand.value == Gathered(events, k) - Saved(events, k)
        else Gathered(events, k) == Saved(events, k))
  }

  lemma {:induction false} OccurrencesLast(events: seq<Event>, k: Kind)
    requires events != []
    ensures var n := |events| - 1;
            Occurrences(events, k)
            == Occurrences(events[..n], k) + (if events[n].Counted? && events[n].kind == k then 1 else 0)
    decreases |events|
  {
    if |events| > 1 {
      var rest := events[1..];
      OccurrencesLast(rest, k);
      assert rest[..|rest| - 1] == events[..|events| - 1][1..];
    }
  }

  lemma {:induction false} SinceAtMost(events: seq<Event>, i: nat, k: Kind)
    ensures Since(events, i, k) <= Occurrences(events, k)
    decreases |events|
  {
    if events != [] {
      OccurrencesLast(events, k);
      SinceAtMost(events[..|events| - 1], i, k);
    }
  }

  lemma RunLast(c: Column, events: seq<Event>, k: Kind)
    requires events != [] && IsRun(c, events, k)
    ensures var n := |events| - 1;
            && IsRun(c, events[..n], k) && Enabled(After(c, events[..n], k), events[n])
            && After(c, events, k) == Advance(After(c, events[..n], k), events[n], k)
  {
    var n := |events| - 1;
    var last := [events[n]];
    assert events[..n] + last == events;
    RunSplit(c, events[..n], last, k);
    var d := After(c, events[..n], k);
    assert last[1..] == [];
    assert Enabled(d, last[0]) && After(d, last, k) == After(Advance(d, last[0], k), last[1..], k);
  }

  lemma StepTotal(c: Column, events: seq<Event>, k: Kind)
    requires events != [] && Enabled(c, events[|events| - 1])
    requires TotalIs(c, events[..|events| - 1], k) && Occurrences(events, k) < WRAP
    requires Occurrences(events[..|events| - 1], k) == Sum(c.residues) + Held(c) + c.total + c.cleared
    ensures TotalIs(Advance(c, events[|events| - 1], k), events, k)
  {
    OccurrencesLast(events, k);
    var e := events[|events| - 1];
    if e.Collected? {
      assert Sum(c.residues) % WRAP == Sum(c.residues);
    } else if e.Accumulated? {
      Unwrapped(c.total, c.hand.value);
    }
  }

  lemma StepResidues(c: Column, events: seq<Event>, k: Kind)
    requires events != [] && Enabled(c, events[|events| - 1])
    requires ResiduesAre(c, events[..|events| - 1], k) && Occurrences(events, k) < WRAP
    ensures ResiduesAre(Advance(c, events[|events| - 1], k), events, k)
  {
    var n := |events| - 1;
    var d := Advance(c, events[n], k);
    forall i | 0 <= i < |d.residues| ensures d.residues[i] == Since(events, i, k) {
      SinceAtMost(events, i, k);
    }
  }

  /** Below 2^32 events, what each number shows after any interleaving: a connection's counter
      what it counted since the last collection, the hand what has been collected and not
      accumulated, and the total what has been accumulated since the last reset. */
  lemma {:induction false} EachNumber(n: nat, events: seq<Event>, k: Kind)
    requires IsRun(Fresh(n), events, k) && Occurrences(events, k) < WRAP
    ensures ResiduesAre(After(Fresh(n), events, k), events, k) && TotalIs(After(Fresh(n), events, k), events, k)
    decreases |events|
  {
    if events != [] {
      var before := events[..|events| - 1];
      RunLast(Fresh(n), events, k);
      OccurrencesLast(events, k);
      EachNumber(n, before, k);
      NoneLost(n, before, k);
      StepTotal(After(Fresh(n), before, k), events, k);
      StepResidues(After(Fresh(n), before, k), events, k);
    }
  }

  /** What is collected and not accumulated yet is not touched by anything else. */
  lemma {:induction false} HandKept(c: Column, events: seq<Event>, k: Kind)
    requires IsRun(c, events, k) && c.hand.Some? && Accumulated !in events
    ensures After(c, events, k).hand == c.hand
    decreases |events|
  {
    if events != [] {
      assert events[0] in events;
      HandKept(Advance(c, events[0], k), events[1..], k);
    }
  }

  lemma {:induction false} RunSplit(c: Column, a: seq<Event>, b: seq<Event>, k: Kind)
    requires IsRun(c, a + b, k)
    ensures IsRun(c, a, k) && IsRun(After(c, a, k), b, k)
    ensures After(c, a + b, k) == After(After(c, a, k), b, k)
    decreases |a|
  {
    if a == [] {
      assert a + b == b;
    } else {
      assert (a + b)[1..] == a[1..] + b;
      RunSplit(Advance(c, a[0], k), a[1..], b, k);
    }
  }

  lemma {:induction false} NeverCleared(c: Column, events: seq<Event>, k: Kind)
    requires IsRun(c, events, k) && Reset !in events
    ensures After(c, events, k).cleared == c.cleared
    decreases |events|
  {
    if events != [] {
      NeverCleared(Advance(c, events[0], k), events[1..], k);
    }
  }

  /** What a command shows before it clears the totals is what it clears, as long as
      nothing is accumulated between the two: the lock is taken only for the second. */
  lemma {:induction false} ShownIsCleared(c: Column, between: seq<Event>, k: Kind)
    requires IsRun(c, between, k) && Accumulated !in between && Reset !in between
    ensures After(c, between, k).total == c.total
    decreases |between|
  {
    if between != [] {
      assert between[0] in between;
      ShownIsCleared(Advance(c, between[0], k), between[1..], k);
    }
  }

  /** What the accumulations of a run add to the total. */
  function Added(c: Column, events: seq<Event>, k: Kind): (n: nat)
    requires IsRun(c, events, k)
    decreases |events|
  {
    if events == [] then 0
    else (if events[0].Accumulated? then Held(c) else 0) + Added(Advance(c, events[0], k), events[1..], k)
  }

  lemma {:induction false} TotalGrows(c: Column, events: seq<Event>, k: Kind)
    requires IsRun(c, events, k) && Reset !in events
    ensures After(c, events, k).total == (c.total + Added(c, events, k)) % WRAP
    decreases |events|
  {
    if events != [] {
      var d := Advance(c, events[0], k);
      TotalGrows(d, events[1..], k);
      if events[0].Accumulated? {
        WrapTwice(c.total + Held(c), Added(d, events[1..], k));
      }
    }
  }

  lemma WrapTwice(n: nat, m: nat)
    ensures (n % WRAP + m) % WRAP == (n + m) % WRAP
  {
  }

  /** Whatever happens between showing and clearing, the two agree if and only if the sums
      accumulated in between add up to zero in 32 bits; otherwise what they added is cleared
      without ever having been shown. */
  lemma ClearedUnseen(c: Column, between: seq<Event>, k: Kind)
    requires IsRun(c, between, k) && Reset !in between
    ensures After(c, between, k).total == c.total <==> Added(c, between, k) % WRAP == 0
  {
    TotalGrows(c, between, k);
    SameSum(c.total, Added(c, between, k));
  }

  lemma SameSum(t: Word, n: nat)
    ensures (t + n) % WRAP == t <==> n % WRAP == 0
  {
  }

  // ------------------------------------------------------ the five counters

  function Projected(s: seq<Tallies>, k: Kind): (r: seq<Word>)
    ensures |r| == |s| && forall i :: 0 <= i < |s| ==> r[i] == s[i].Of(k)
  {
    seq(|s|, i requires 0 <= i < |s| => s[i].Of(k))
  }

  /** The switch over the result code of an answer. */
  method Classify(code: Option<int>) returns (k: Kind)
    ensures k == Success <==> code.Some? && 2001 <= code.value < 3000
    ensures k == Busy <==> code == Some(DIAMETER_TOO_BUSY)
    ensures k == Unable <==> code == Some(DIAMETER_UNABLE_TO_COMPLY)
    ensures k != RequestSent
  {
    if code == None {
      return Other;
    }
    var value := code.value;
    if value == DIAMETER_SUCCESS {
      return Success;
    } else if value == DIAMETER_UNABLE_TO_COMPLY {
      return Unable;
    } else if value == DIAMETER_TOO_BUSY {
      return Busy;
    } else if value > 2001 && value < 3000 {
      return Success;
    }
    return Other;
  }

  function Add(t: Tallies, u: Tallies): (r: Tallies)
    ensures forall k: Kind :: r.Of(k) == Plus(t.Of(k), u.Of(k))
  {
    Tallies(Plus(t.success, u.success), Plus(t.busy, u.busy), Plus(t.unable, u.unable),
            Plus(t.other, u.other), Plus(t.requestSent, u.requestSent))
  }

  /** One event more of a kind. */
  function Counting(t: Tallies, k: Kind): (r: Tallies)
    ensures forall j: Kind :: r.Of(j) == if j == k then Plus(t.Of(j), 1) else t.Of(j)
  {
    match k
    case Success => t.(success := Plus(t.success, 1))
    case Busy => t.(busy := Plus(t.busy, 1))
    case Unable => t.(unable := Plus(t.unable, 1))
    case Other => t.(other := Plus(t.other, 1))
    case RequestSent => t.(requestSent := Plus(t.requestSent, 1))
  }

  lemma SumStep(s: seq<Tallies>, i: nat, k: Kind)
    requires i < |s|
    ensures Plus(Sum(Projected(s[..i], k)) % WRAP, s[i].Of(k)) == Sum(Projected(s[..i + 1], k)) % WRAP
  {
    var p := Projected(s[..i + 1], k);
    assert p[..i] == Projected(s[..i], k);
    WrapOnce(Sum(p[..i]), s[i].Of(k));
  }

  lemma WrapOnce(n: nat, x: Word)
    ensures Plus(n % WRAP, x) == (n + x) % WRAP
  {
  }

  class Statistics {
    const connections: array<Tallies>
    var totals: Tallies
    var hand: Option<Tallies>       // the local sums of the report thread
    ghost var cleared: Kind -> nat
    ghost var wraps: Kind -> nat

    /** What happened to one kind of event. */
    ghost function At(k: Kind): (c: Column)
      reads this, connections
    {
      Column(Projected(connections[..], k), if hand.Some? then Some(hand.value.Of(k)) else None,
             totals.Of(k), cleared(k), wraps(k))
    }

    constructor (n: nat)
      ensures fresh(connections) && connections.Length == n && hand == None
      ensures forall k: Kind :: At(k) == Fresh(n)
    {
      connections := new Tallies[n](_ => NONE);
      totals, hand := NONE, None;
      cleared, wraps := _ => 0, _ => 0;
      new;
      forall k: Kind ensures At(k) == Fresh(n) {
        assert Projected(connections[..], k) == Zeros(n);
      }
    }

    /** An event on a connection. */
    method Count(c: nat, kind: Kind)
      requires c < connections.Length
      modifies this`wraps, connections
      ensures forall k: Kind :: At(k) == Advance(old(At(k)), Counted(c, kind), k)
    {
      ghost var was, before, t := wraps, connections[..], connections[c];
      connections[c] := Counting(connections[c], kind);
      wraps := k => was(k) + (if k == kind then (t.Of(k) as nat + 1) / WRAP else 0);
      forall k: Kind ensures At(k) == Advance(old(At(k)), Counted(c, kind), k) {
        var p := Projected(before, k);
        if k == kind {
          assert Projected(connections[..], k) == p[c := Plus(p[c], 1)];
        } else {
          assert Projected(connections[..], k) == p;
        }
      }
    }

    /** An answer from a server, `n` octets long: it is counted by its first result code. */
    method CountAnswer(c: nat, buff: seq<Byte>, n: nat) returns (kind: Kind)
      requires c < connections.Length
      requires n <= |buff| && ResultSearchable(buff, n, HEADER_LENGTH)
      modifies this`wraps, connections
      ensures forall k: Kind :: At(k) == Advance(old(At(k)), Counted(c, kind), k)
      ensures var code := ResultIn(buff, n, HEADER_LENGTH);
              && (kind == Success <==> code.Some? && 2001 <= code.value < 3000)
              && (kind == Busy <==> code == Some(DIAMETER_TOO_BUSY))
              && (kind == Unable <==> code == Some(DIAMETER_UNABLE_TO_COMPLY))
              && kind != RequestSent
    {
      var found, value := ExtractResultCode(buff, n);
      kind := Classify(if found then Some(value) else None);
      Count(c, kind);
    }

    /** The first critical section of `save_DiaErrCounters_data`. */
    method Collect()
      requires hand == None
      modifies this`hand, this`wraps, connections
      ensures hand.Some?
      ensures forall k: Kind :: At(k) == Advance(old(At(k)), Collected, k)
    {
      ghost var s := connections[..];
      var t := SumAndZero();
      hand := Some(t);
      ghost var was := wraps;
      wraps := k => was(k) + Sum(Projected(s, k)) / WRAP;
      forall k: Kind ensures At(k) == Advance(old(At(k)), Collected, k) {
        assert Projected(connections[..], k) == Zeros(|s|);
      }
    }

    method SumAndZero() returns (t: Tallies)
      modifies connections
      ensures forall j :: 0 <= j < connections.Length ==> connections[j] == NONE
      ensures forall k: Kind :: t.Of(k) == Sum(Projected(old(connections[..]), k)) % WRAP
    {
      t := NONE;
      ghost var s := connections[..];
      for i := 0 to connections.Length
        invariant forall j :: 0 <= j < i ==> connections[j] == NONE
        invariant forall j :: i <= j < connections.Length ==> connections[j] == s[j]
        invariant forall k: Kind :: t.Of(k) == Sum(Projected(s[..i], k)) % WRAP
      {
        forall k: Kind ensures Plus(t.Of(k), s[i].Of(k)) == Sum(Projected(s[..i + 1], k)) % WRAP {
          SumStep(s, i, k);
        }
        t := Add(t, connections[i]);
        connections[i] := NONE;
      }
      assert s[..connections.Length] == s;
    }

    /** The second critical section, and the row written to the percentage report. */
    method Accumulate() returns (row: Percentages)
      requires hand.Some?
      modifies this`hand, this`totals, this`wraps
      ensures hand == None
      ensures forall k: Kind :: At(k) == Advance(old(At(k)), Accumulated, k)
      ensures row == Row(old(hand).value)
    {
      ghost var was, t, h := wraps, totals, hand.value;
      wraps := k => was(k) + (t.Of(k) as nat + h.Of(k) as nat) / WRAP;
      totals := Add(totals, hand.value);
      row := Row(hand.value);
      hand := None;
    }

    method ResetTotals()
      modifies this`totals, this`cleared
      ensures forall k: Kind :: At(k) == Advance(old(At(k)), Reset, k)
    {
      ghost var was, t := cleared, totals;
      cleared := k => was(k) + t.Of(k);
      totals := NONE;
    }
  }

  // ------------------------------------------------------------ percentages

  datatype Percentages = Percentages(success: nat, busy: nat, unable: nat, other: nat)

  /** The answers of a row, as a number without bound. */
  function Answers(t: Tallies): (n: nat)
  {
    t.success as nat + t.busy as nat + t.unable as nat + t.other as nat
  }

  /** 100 * x / total in 32 bits. */
  function Share(x: Word, total: Word): (p: nat)
    requires total > 0
  {
    (100 * (x as nat)) % WRAP / total
  }

  /** The percentages of a row. */
  function Row(t: Tallies): (p: Percentages)
  {
    var total := Plus(Plus(Plus(t.success, t.busy), t.unable), t.other);
    if total > 0
    then Percentages(Share(t.success, total), Share(t.busy, total), Share(t.unable, total), Share(t.other, total))
    else Percentages(0, 0, 0, 0)
  }

  function Total(p: Percentages): (n: nat)
  {
    p.success + p.busy + p.unable + p.other
  }

  predicate NoOverflow(t: Tallies)
  {
    100 * t.success < WRAP && 100 * t.busy < WRAP && 100 * t.unable < WRAP && 100 * t.other < WRAP
  }

  /** For every row whose answers can be counted in 32 bits, and has some: the four numbers
      add up to between 97 and 100 exactly if none of the four multiplications overflows. */
  lemma SumsToAHundred(t: Tallies)
    requires 0 < Answers(t) < WRAP
    ensures 97 <= Total(Row(t)) <= 100 <==> NoOverflow(t)
  {
    Floors(t);
    Hundred(Row(t), t);
  }

  /** `q` is the quotient of `a` by `n`. */
  predicate IsFloor(q: nat, a: nat, n: nat)
  {
    q * n <= a < q * n + n
  }

  /** The percentages of a row by what they are, not by how they are computed. */
  predicate Fair(p: Percentages, t: Tallies)
  {
    var n := Answers(t);
    && IsFloor(p.success, 100 * t.success as nat % WRAP, n) && IsFloor(p.busy, 100 * t.busy as nat % WRAP, n)
    && IsFloor(p.unable, 100 * t.unable as nat % WRAP, n) && IsFloor(p.other, 100 * t.other as nat % WRAP, n)
  }

  lemma Floors(t: Tallies)
    requires 0 < Answers(t) < WRAP
    ensures Fair(Row(t), t)
  {
    RowIs(t);
    var n := Answers(t);
    ShareIs(t.success, n);
    ShareIs(t.busy, n);
    ShareIs(t.unable, n);
    ShareIs(t.other, n);
  }

  lemma ShareIs(x: Word, n: Word)
    requires n > 0
    ensures IsFloor(Share(x, n), 100 * (x as nat) % WRAP, n)
  {
  }

  lemma Hundred(p: Percentages, t: Tallies)
    requires 0 < Answers(t) < WRAP && Fair(p, t)
    ensures 97 <= Total(p) <= 100 <==> NoOverflow(t)
  {
    var x, y, z, w := 100 * (t.success as nat), 100 * (t.busy as nat), 100 * (t.unable as nat), 100 * (t.other as nat);
    Wrapped(x, y, z, w);
    var a, b, c, d := x % WRAP, y % WRAP, z % WRAP, w % WRAP;
    var wraps := x / WRAP + y / WRAP + z / WRAP + w / WRAP;
    FourFloors(p, a, b, c, d, Answers(t), wraps);
  }

  lemma FourFloors(p: Percentages, a: nat, b: nat, c: nat, d: nat, n: nat, wraps: nat)
    requires 0 < n < WRAP && a + b + c + d == 100 * n - wraps * WRAP && a + b + c + d < 4 * WRAP
    requires IsFloor(p.success, a, n) && IsFloor(p.busy, b, n) && IsFloor(p.unable, c, n) && IsFloor(p.other, d, n)
    ensures 97 <= Total(p) <= 100 <==> wraps == 0
  {
    SumOfFour(p.success, p.busy, p.unable, p.other, n);
    Decide(Total(p), n, wraps, a + b + c + d);
  }

  lemma SumOfFour(x: nat, y: nat, z: nat, w: nat, n: nat)
    ensures (x + y + z + w) * n == x * n + y * n + z * n + w * n
  {
  }

  lemma RowIs(t: Tallies)
    requires 0 < Answers(t) < WRAP
    ensures var n := Answers(t);
            Row(t) == Percentages(Share(t.success, n), Share(t.busy, n), Share(t.unable, n), Share(t.other, n))
  {
    Unwrapped(t.success, t.busy);
    Unwrapped(t.success + t.busy, t.unable);
    Unwrapped(t.success + t.busy + t.unable, t.other);
  }

  lemma Unwrapped(x: nat, y: nat)
    requires x + y < WRAP
    ensures Plus(x, y) == x + y
  {
  }

  lemma Decide(p: nat, n: nat, wraps: nat, left: nat)
    requires 0 < n < WRAP && left == 100 * n - wraps * WRAP && left < 4 * WRAP
    requires p * n <= left < p * n + 4 * n
    ensures 97 <= p <= 100 <==> wraps == 0
  {
    if wraps == 0 {
      Within(p, n);
    } else {
      TooLow(p, n, wraps, left);
    }
  }

  lemma Wrapped(x: nat, y: nat, z: nat, w: nat)
    ensures var wraps := x / WRAP + y / WRAP + z / WRAP + w / WRAP;
            && x % WRAP + y % WRAP + z % WRAP + w % WRAP == x + y + z + w - wraps * WRAP
            && (wraps == 0 <==> x < WRAP && y < WRAP && z < WRAP && w < WRAP)
            && x % WRAP + y % WRAP + z % WRAP + w % WRAP < 4 * WRAP
  {
    Divided(x);
    Divided(y);
    Divided(z);
    Divided(w);
  }

  /** Nothing is lost to rounding exactly if every count is a whole number of percents. */
  lemma ExactlyAHundred(t: Tallies)
    requires 0 < Answers(t) && NoOverflow(t)
    ensures var n := Answers(t);
            Total(Row(t)) == 100 <==>
              && (100 * t.success) % n == 0 && (100 * t.busy) % n == 0
              && (100 * t.unable) % n == 0 && (100 * t.other) % n == 0
  {
    RowIs(t);
    var n := Answers(t);
    Small(t.success, n);
    Small(t.busy, n);
    Small(t.unable, n);
    Small(t.other, n);
    Remainders(100 * t.success, 100 * t.busy, 100 * t.unable, 100 * t.other, n);
  }

  lemma Small(x: Word, n: nat)
    requires 100 * x < WRAP && 0 < n < WRAP
    ensures Share(x, n) == 100 * x / n
  {
  }

  lemma Remainders(a: nat, b: nat, c: nat, d: nat, n: nat)
    requires n > 0 && a + b + c + d == 100 * n
    ensures a / n + b / n + c / n + d / n == 100 <==> a % n == 0 && b % n == 0 && c % n == 0 && d % n == 0
  {
    Division(a, n);
    Division(b, n);
    Division(c, n);
    Division(d, n);
    Whole(a / n, b / n, c / n, d / n, a % n, b % n, c % n, d % n, n);
  }

  lemma Division(a: nat, n: nat)
    requires n > 0
    ensures a == a / n * n + a % n
  {
  }

  lemma Whole(x: nat, y: nat, z: nat, w: nat, a: nat, b: nat, c: nat, d: nat, n: nat)
    requires n > 0 && (x * n + a) + (y * n + b) + (z * n + c) + (w * n + d) == 100 * n
    ensures x + y + z + w == 100 <==> a == 0 && b == 0 && c == 0 && d == 0
  {
    SumOfFour(x, y, z, w, n);
    Cancel(x + y + z + w, n, a + b + c + d);
  }

  lemma Cancel(p: nat, n: nat, r: nat)
    requires n > 0 && p * n + r == 100 * n
    ensures p == 100 <==> r == 0
  {
    Times(p, 101, n);
    Times(99, p, n);
  }

  lemma Times(p: nat, q: nat, n: nat)
    ensures p >= q ==> p * n >= q * n
    ensures (p + 1) * n == p * n + n
  {
  }

  /** Once the answers themselves exceed 32 bits the sum proves nothing: here it is 100,
      and the three answers too busy stand for everything. */
  lemma HundredOfTheWrong()
    ensures var t := Tallies(0x8000_0000, 3, 0, 0x8000_0000, 0);
            Answers(t) >= WRAP && !NoOverflow(t) && Row(t) == Percentages(0, 100, 0, 0)
  {
  }

  lemma Within(p: nat, n: nat)
    requires n > 0 && p * n <= 100 * n < p * n + 4 * n
    ensures 97 <= p <= 100
  {
    Times(p, 101, n);
    Times(96, p, n);
  }

  /** Too much is missing once a multiplication has wrapped around. */
  lemma TooLow(p: nat, n: nat, wraps: nat, left: nat)
    requires 0 < n < WRAP && wraps >= 1 && left == 100 * n - wraps * WRAP
    requires left < 4 * WRAP && p * n <= left
    ensures p < 97
  {
    Times(p, 97, n);
  }
}
