/** The shared table of transaction records and its search, `findTransaction`
    (DiaProxy/source/ClientThread.cpp). The lock is released between two probes, so a
    search is a sequence of single probes among which those of other threads, and
    releases, may fall. */
module TransactionTable {
  import opened Cycle

  datatype Table = Table(used: seq<bool>, cursor: nat)

  predicate Valid(t: Table)
  {
    t.cursor < |t.used|
  }

  /** What one critical section, or one unguarded store, does to the table. */
  datatype Event =
    | Take                    // a probe finds the record under the cursor free
    | Skip                    // a probe finds it used and moves on
    | GiveUp                  // the last probe of a search finds it used
    | Release(slot: nat)
    | Other                   // a step that does not concern the table

  predicate Step(t: Table, e: Event, t': Table)
    requires Valid(t)
  {
    match e
    case Take => !t.used[t.cursor] && t' == Table(t.used[t.cursor := true], Following(|t.used|, t.cursor))
    case Skip => t.used[t.cursor] && t' == Table(t.used, Following(|t.used|, t.cursor))
    case GiveUp => t.used[t.cursor] && t' == t
    case Release(s) => s < |t.used| && t' == t.(used := t.used[s := false])
    case Other => t' == t
  }

  ghost predicate IsRun(run: seq<Table>, events: seq<Event>)
  {
    && |run| == |events| + 1
    && (forall i :: 0 <= i < |run| ==> Valid(run[i]) && |run[i].used| == |run[0].used|)
    && (forall i :: 0 <= i < |events| ==> Step(run[i], events[i], run[i + 1]))
  }

  ghost predicate TakenAt(run: seq<Table>, events: seq<Event>, i: nat, s: nat)
    requires IsRun(run, events)
  {
    i < |events| && events[i] == Take && run[i].cursor == s
  }

  /** No record is handed out twice without having been released in between, however
      many searches and releases are interleaved. */
  lemma NoDoubleHandout(run: seq<Table>, events: seq<Event>, i: nat, j: nat, s: nat)
    requires IsRun(run, events) && i < j
    requires TakenAt(run, events, i, s) && TakenAt(run, events, j, s)
    ensures exists k :: i < k < j && events[k] == Release(s)
  {
    assert Step(run[i], events[i], run[i + 1]);
    assert Step(run[j], events[j], run[j + 1]);
    FreedBetween(run, events, i + 1, j, s);
  }

  lemma {:induction false} FreedBetween(run: seq<Table>, events: seq<Event>, i: nat, j: nat, s: nat)
    requires IsRun(run, events) && i <= j < |run| && s < |run[0].used|
    requires run[i].used[s] && !run[j].used[s]
    ensures exists k :: i <= k < j && events[k] == Release(s)
    decreases j - i
  {
    assert Step(run[i], events[i], run[i + 1]);
    if run[i + 1].used[s] {
      FreedBetween(run, events, i + 1, j, s);
    }
  }

  /** The record `x` was in use in some state after the one with number `i`, up to the
      one with number `k`. */
  ghost predicate UsedWithin(run: seq<Table>, i: nat, k: nat, x: nat)
    requires k < |run|
    requires forall n :: 0 <= n < |run| ==> x < |run[n].used|
  {
    exists n :: i < n <= k && run[n].used[x]
  }

  /** Delayed reuse of identifiers: between two allocations of the same record, every
      other record was in use at some moment. So a record is not reused while another
      one stays free, whatever else happens in between. */
  lemma DelayedReuse(run: seq<Table>, events: seq<Event>, i: nat, j: nat, s: nat, x: nat)
    requires IsRun(run, events) && i < j
    requires TakenAt(run, events, i, s) && TakenAt(run, events, j, s)
    requires x < |run[0].used| && x != s
    ensures UsedWithin(run, i, j, x)
  {
    var n := |run[0].used|;
    assert Step(run[i], events[i], run[i + 1]);
    Turn(run, events, i, j, s, x);
    assert Distance(n, Following(n, s), s) == n - 1;
  }

  /** While the cursor makes its way round from `s`, it leaves no record behind that has
      not been in use. */
  lemma {:induction false} Turn(run: seq<Table>, events: seq<Event>, i: nat, k: nat, s: nat, x: nat)
    requires IsRun(run, events) && i < k < |run|
    requires s < |run[0].used| && x < |run[0].used| && x != s
    requires run[i + 1].cursor == Following(|run[0].used|, s)
    ensures var n := |run[0].used|; var start := Following(n, s);
            Distance(n, start, x) < Distance(n, start, run[k].cursor) ==> UsedWithin(run, i, k, x)
    ensures var n := |run[0].used|;
            UsedWithin(run, i, k, x)
            || Distance(n, Following(n, s), run[k].cursor) <= Distance(n, Following(n, s), x)
    decreases k
  {
    if k > i + 1 {
      Turn(run, events, i, k - 1, s, x);
      assert Step(run[k - 1], events[k - 1], run[k]);
      assert UsedWithin(run, i, k - 1, x) ==> UsedWithin(run, i, k, x);
      if run[k].cursor != run[k - 1].cursor && run[k - 1].cursor == x {
        assert run[k].used[x];
      }
    }
  }

  // ------------------------------------------------ when a search may fail

  /** How often the cursor moves from the state with number `i` to the one with number `j`. */
  function Moves(events: seq<Event>, i: nat, j: nat): (n: nat)
    requires i <= j <= |events|
    ensures n <= j - i
    decreases j
  {
    if i == j then 0 else Moves(events, i, j - 1) + (if events[j - 1] in {Take, Skip} then 1 else 0)
  }

  /** The record `x` was in use in some state from number `i` to number `k`. */
  ghost predicate SeenUsed(run: seq<Table>, i: nat, k: nat, x: nat)
    requires k < |run|
    requires forall n :: 0 <= n < |run| ==> x < |run[n].used|
  {
    exists n :: i <= n <= k && run[n].used[x]
  }

  /** The cursor passes a record only when it is, or has just been put, in use. */
  lemma {:induction false} Passed(run: seq<Table>, events: seq<Event>, i: nat, k: nat, x: nat)
    requires IsRun(run, events) && i <= k < |run| && x < |run[0].used|
    ensures SeenUsed(run, i, k, x)
            || (var n := |run[0].used|;
                && Moves(events, i, k) <= Distance(n, run[i].cursor, x)
                && Distance(n, run[i].cursor, run[k].cursor) == Moves(events, i, k))
    decreases k
  {
    if i < k {
      Passed(run, events, i, k - 1, x);
      assert Step(run[k - 1], events[k - 1], run[k]);
      assert SeenUsed(run, i, k - 1, x) ==> SeenUsed(run, i, k, x);
      if run[k - 1].cursor == x && events[k - 1] in {Take, Skip} {
        assert run[k].used[x];
      }
    }
  }

  /** A search gives up after its cursor has gone round: at least one move less than there
      are records, and then a used one. By then every record has been seen in use. */
  ghost predicate GivesUp(run: seq<Table>, events: seq<Event>, i: nat, j: nat)
    requires IsRun(run, events)
  {
    i <= j < |events| && events[j] == GiveUp && Moves(events, i, j) >= |run[0].used| - 1
  }

  lemma AllSeenUsed(run: seq<Table>, events: seq<Event>, i: nat, j: nat, x: nat)
    requires IsRun(run, events) && GivesUp(run, events, i, j) && x < |run[0].used|
    ensures SeenUsed(run, i, j, x)
  {
    Passed(run, events, i, j, x);
    assert Step(run[j], events[j], run[j + 1]);
    assert run[j].cursor == x ==> run[j].used[x];
  }

  /** Released in step `k`, and not taken again before the state with number `j`. */
  ghost predicate FreeSince(run: seq<Table>, events: seq<Event>, k: nat, j: nat, x: nat)
    requires IsRun(run, events) && j <= |events|
  {
    k < j && events[k] == Release(x) && forall l :: k < l < j ==> !TakenAt(run, events, l, x)
  }

  lemma {:induction false} LastRelease(run: seq<Table>, events: seq<Event>, i: nat, j: nat, x: nat)
    requires IsRun(run, events) && i <= j < |run| && x < |run[0].used|
    requires run[i].used[x] && !run[j].used[x]
    ensures exists k :: i <= k < j && FreeSince(run, events, k, j, x)
    decreases j
  {
    assert Step(run[j - 1], events[j - 1], run[j]);
    if run[j - 1].used[x] {
      assert FreeSince(run, events, j - 1, j, x);
    } else {
      LastRelease(run, events, i, j - 1, x);
      var k :| i <= k < j - 1 && FreeSince(run, events, k, j - 1, x);
      assert FreeSince(run, events, k, j, x);
    }
  }

  lemma {:induction false} StaysFree(run: seq<Table>, events: seq<Event>, k: nat, j: nat, x: nat)
    requires IsRun(run, events) && k < j < |run| && x < |run[0].used| && FreeSince(run, events, k, j, x)
    ensures !run[j].used[x]
    decreases j
  {
    assert Step(run[j - 1], events[j - 1], run[j]);
    if k < j - 1 {
      assert FreeSince(run, events, k, j - 1, x);
      StaysFree(run, events, k, j - 1, x);
      assert !TakenAt(run, events, j - 1, x);
    }
  }

  /** When a search fails although a record is free. For any interleaving, a record is free
      at the moment of giving up if and only if it was released during the search and not
      taken again. So a search during which nothing is released fails only on a full table. */
  lemma FreeAtGiveUp(run: seq<Table>, events: seq<Event>, i: nat, j: nat, x: nat)
    requires IsRun(run, events) && GivesUp(run, events, i, j) && x < |run[0].used|
    ensures !run[j].used[x] <==> exists k :: i <= k < j && FreeSince(run, events, k, j, x)
  {
    AllSeenUsed(run, events, i, j, x);
    var m :| i <= m <= j && run[m].used[x];
    if !run[j].used[x] {
      LastRelease(run, events, m, j, x);
    }
    if k :| i <= k < j && FreeSince(run, events, k, j, x) {
      StaysFree(run, events, k, j, x);
    }
  }

  /** It does happen: the record a search saw used may be released behind it. */
  lemma FailureWithAFreeRecord()
    ensures exists run: seq<Table>, events: seq<Event> ::
              IsRun(run, events) && events == [Skip, Release(0), GiveUp] && !run[3].used[0]
  {
    var full := Table([true, true], 0);
    var run := [full, Table([true, true], 1), Table([false, true], 1), Table([false, true], 1)];
    var events := [Skip, Release(0), GiveUp];
    assert Step(run[0], events[0], run[1]) && Step(run[1], events[1], run[2]) && Step(run[2], events[2], run[3]);
    assert IsRun(run, events);
  }

  // ------------------------------------------------------- the search itself

  class Transactions {
    const status: array<bool>       // USED or not, one entry per record
    var next: nat                   // nextTransaction

    ghost predicate Valid()
      reads this, status
    {
      next < status.Length
    }

    ghost function Contents(): (t: Table)
      reads this, status
    {
      Table(status[..], next)
    }

    /** `numberOfTransactions` is between 1 and 67108863. */
    constructor (numberOfTransactions: nat)
      requires numberOfTransactions >= 1
      ensures Valid() && fresh(status)
      ensures Contents() == Table(seq(numberOfTransactions, i => false), 0)
    {
      status := new bool[numberOfTransactions](_ => false);
      next := 0;
    }

    /** One critical section of the search. `last` says that this is its last probe. */
    method Probe(last: bool) returns (index: int)
      requires Valid()
      modifies this`next, status
      ensures Valid()
      ensures Step(old(Contents()), if index >= 0 then Take else if last then GiveUp else Skip, Contents())
      ensures index >= 0 ==> index == old(next)
      ensures index == -1 <==> old(status[next])
      ensures index >= -1
    {
      if !status[next] {
        status[next] := true;
        index := next;
        next := if next < status.Length - 1 then next + 1 else 0;
      } else {
        index := -1;
        if !last {
          next := if next < status.Length - 1 then next + 1 else 0;
        }
      }
    }

    /** `findTransaction` with no other thread at work: at most as many probes as there
        are records; failure exactly when all are used; otherwise the first free record
        in the order of the cursor, which ends up behind it. */
    method FindTransaction() returns (index: int, ghost probes: nat)
      requires Valid()
      modifies this`next, status
      ensures Valid() && 1 <= probes <= status.Length
      ensures -1 <= index < status.Length
      ensures index == -1 <==> forall s :: 0 <= s < status.Length ==> old(status[s])
      ensures index == -1 ==> status[..] == old(status[..])
      ensures index >= 0 ==>
                && !old(status[index])
                && status[..] == old(status[..])[index := true]
                && next == Following(status.Length, index)
                && probes == Distance(status.Length, old(next), index) + 1
                && forall s :: 0 <= s < status.Length
                               && Distance(status.Length, old(next), s) < Distance(status.Length, old(next), index)
                               ==> old(status[s])
    {
      var searches := 1;
      probes := 0;
      var n := status.Length;
      while true
        invariant Valid() && status[..] == old(status[..])
        invariant 1 <= searches <= n && probes == searches - 1
        invariant Distance(n, old(next), next) == searches - 1
        invariant forall s :: 0 <= s < n && Distance(n, old(next), s) < searches - 1 ==> old(status[s])
        decreases n - searches
      {
        ghost var here := next;
        assert status[here] == old(status[..])[here];
        index := Probe(searches + 1 > n);
        probes := probes + 1;
        if index >= 0 {
          return;
        }
        searches := searches + 1;
        assert forall s :: 0 <= s < n && Distance(n, old(next), s) == searches - 2 ==> s == here;
        if searches > n {
          return;
        }
      }
    }
  }
}
