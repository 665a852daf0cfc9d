/** The client of last resort for a server request: `findUsedClient` and
    `findUsedClientWaitingAnswer` (DiaProxy/source/DiaThread.cpp). */
module Clients {
  import opened Cycle

  /** The first position from `c` on, round the table, at which `p` holds; at most `n`
      positions are looked at. */
  function FirstFrom(p: seq<bool>, c: nat, n: nat): (index: int)
    requires c < |p|
    ensures -1 <= index < |p| && (index >= 0 ==> p[index])
    decreases n
  {
    if n == 0 then -1 else if p[c] then c else FirstFrom(p, Following(|p|, c), n - 1)
  }

  function Preceding(n: nat, c: nat): (b: nat)
    requires c < n
    ensures b < n && Following(n, b) == c
  {
    if c == 0 then n - 1 else c - 1
  }

  /** Nothing nearer was passed over. */
  lemma {:induction false} FirstIsNearest(p: seq<bool>, c: nat, n: nat, x: nat)
    requires c < |p| && n <= |p| && x < |p| && Distance(|p|, c, x) < n && p[x]
    ensures FirstFrom(p, c, n) >= 0
    ensures Distance(|p|, c, FirstFrom(p, c, n)) <= Distance(|p|, c, x)
    decreases n
  {
    if !p[c] {
      var next := Following(|p|, c);
      assert Distance(|p|, next, x) == Distance(|p|, c, x) - 1;
      FirstIsNearest(p, next, n - 1, x);
      var i := FirstFrom(p, next, n - 1);
      assert Distance(|p|, c, i) <= Distance(|p|, next, i) + 1;
    }
  }

  function Both(a: seq<bool>, b: seq<bool>): (r: seq<bool>)
    requires |a| == |b|
    ensures |r| == |a|
  {
    seq(|a|, i requires 0 <= i < |a| => a[i] && b[i])
  }

  /** The two searches one after the other: among the online clients waiting for an
      answer, then among the online clients, from where the first search stopped. */
  function UsedClient(online: seq<bool>, waiting: seq<bool>, c: nat): (r: (int, nat))
    requires |online| == |waiting| && c < |online|
    ensures r.1 < |online|
  {
    var n := |online|;
    var first := FirstFrom(Both(online, waiting), c, n);
    if first >= 0 then (first, Following(n, first))
    else
      var start := Preceding(n, c);
      var second := FirstFrom(online, start, n);
      (second, if second >= 0 then Following(n, second) else Preceding(n, start))
  }

  /** A client is found if and only if one is online, and it is online. */
  lemma FoundIffOnline(online: seq<bool>, waiting: seq<bool>, c: nat)
    requires |online| == |waiting| && c < |online|
    ensures var r := UsedClient(online, waiting, c).0;
            && (r >= 0 <==> exists x :: 0 <= x < |online| && online[x])
            && (r >= 0 ==> r < |online| && online[r])
  {
    if x :| 0 <= x < |online| && online[x] {
      FirstIsNearest(online, Preceding(|online|, c), |online|, x);
    }
  }

  /** An online client that waits for an answer is preferred. */
  lemma WaitingPreferred(online: seq<bool>, waiting: seq<bool>, c: nat)
    requires |online| == |waiting| && c < |online|
    requires exists x :: 0 <= x < |online| && online[x] && waiting[x]
    ensures var r := UsedClient(online, waiting, c).0; 0 <= r < |online| && online[r] && waiting[r]
  {
    var both := Both(online, waiting);
    var x :| 0 <= x < |online| && online[x] && waiting[x];
    assert both[x];
    FirstIsNearest(both, c, |online|, x);
  }

  /** Which client it is: the nearest waiting one from the cursor on, or, if none waits, the
      nearest online one from the position before the cursor on. */
  lemma UsedIsNearest(online: seq<bool>, waiting: seq<bool>, c: nat, x: nat)
    requires c < |online| == |waiting| && x < |online| && online[x]
    ensures var n, r := |online|, UsedClient(online, waiting, c).0;
            && 0 <= r < n && online[r]
            && (waiting[x] ==> waiting[r] && Distance(n, c, r) <= Distance(n, c, x))
            && (!waiting[r] ==> var p := if c == 0 then n - 1 else c - 1; Distance(n, p, r) <= Distance(n, p, x))
  {
    var n, both := |online|, Both(online, waiting);
    FoundIffOnline(online, waiting, c);
    if waiting[x] {
      assert both[x];
      FirstIsNearest(both, c, n, x);
    } else {
      FirstIsNearest(online, Preceding(n, c), n, x);
    }
  }

  /** At least two online clients wait for an answer. */
  ghost predicate TwoWait(online: seq<bool>, waiting: seq<bool>)
    requires |online| == |waiting|
  {
    exists x: nat, y: nat :: TwoWaitAt(online, waiting, x, y)
  }

  /** The search has no rotation to speak of: while nothing changes, the next request goes to
      the same client again if and only if fewer than two online clients wait. With none
      waiting it is because the failed first search leaves the cursor one behind. */
  lemma NoRotation(online: seq<bool>, waiting: seq<bool>, c: nat)
    requires |online| == |waiting| && c < |online| && UsedClient(online, waiting, c).0 >= 0
    ensures var r := UsedClient(online, waiting, c);
            UsedClient(online, waiting, r.1).0 == r.0 <==> !TwoWait(online, waiting)
  {
    var n, both, r := |online|, Both(online, waiting), UsedClient(online, waiting, c);
    assert forall x: nat, y: nat :: TwoWaitAt(online, waiting, x, y) ==> both[x];
    if x :| 0 <= x < n && both[x] {
      FirstIsNearest(both, c, n, x);
      FirstIsNearest(both, r.1, n, r.0);
      FoundAgain(online, waiting, r.0);
    }
  }

  /** A waiting client is found from the position behind it iff it is the only one. */
  lemma FoundAgain(online: seq<bool>, waiting: seq<bool>, i: nat)
    requires i < |online| == |waiting| && online[i] && waiting[i]
    ensures FirstFrom(Both(online, waiting), Following(|online|, i), |online|) == i <==> !TwoWait(online, waiting)
  {
    var n, both, next := |online|, Both(online, waiting), Following(|online|, i);
    assert Distance(n, next, i) == n - 1;
    FirstIsNearest(both, next, n, i);
    var found := FirstFrom(both, next, n);
    if found != i {
      assert TwoWaitAt(online, waiting, if i < found then i else found, if i < found then found else i);
    }
    if x: nat, y: nat :| TwoWaitAt(online, waiting, x, y) {
      var other := if x == i then y else x;
      FirstIsNearest(both, next, n, other);
      assert Distance(n, next, other) < n - 1;
    }
  }

  predicate TwoWaitAt(online: seq<bool>, waiting: seq<bool>, x: nat, y: nat)
    requires |online| == |waiting|
  {
    x < y < |online| && online[x] && waiting[x] && online[y] && waiting[y]
  }

  class ClientTable {
    const online: array<bool>
    const waiting: array<bool>
    var next: nat               // nextClient

    ghost predicate Valid()
      reads this
    {
      online.Length == waiting.Length && next < online.Length
    }

    constructor (numberOfClients: nat)
      requires numberOfClients >= 1
      ensures Valid() && fresh(online) && fresh(waiting) && next == 0
    {
      online := new bool[numberOfClients](_ => false);
      waiting := new bool[numberOfClients](_ => false);
      next := 0;
    }

    method Advance()
      requires Valid()
      modifies this
      ensures Valid() && next == Following(online.Length, old(next))
    {
      if next < online.Length - 1 {
        next := next + 1;
      } else {
        next := 0;
      }
    }

    /** The loop both functions have; `all` tells which clients it accepts. */
    method Search(all: bool) returns (index: int)
      requires Valid()
      modifies this
      ensures Valid()
      ensures var p := if all then online[..] else Both(online[..], waiting[..]);
              && index == FirstFrom(p, old(next), |p|)
              && next == if index >= 0 then Following(|p|, index) else Preceding(|p|, old(next))
    {
      ghost var p := if all then online[..] else Both(online[..], waiting[..]);
      var n, searches := online.Length, 1;
      while true
        invariant Valid() && 1 <= searches <= n
        invariant FirstFrom(p, next, n - searches + 1) == FirstFrom(p, old(next), n)
        invariant Distance(n, old(next), next) == searches - 1
        decreases n - searches
      {
        if online[next] && (all || waiting[next]) {
          index := next;
          Advance();
          return;
        }
        searches := searches + 1;
        if searches > n {
          return -1;
        }
        Advance();
      }
    }

    method FindUsedClient() returns (result: int)
      requires Valid()
      modifies this
      ensures Valid()
      ensures (result, next) == UsedClient(online[..], waiting[..], old(next))
      ensures var n, c := online.Length, old(next);
              next == if result >= 0 then (if result == n - 1 then 0 else result + 1)
                      else if c >= 2 then c - 2 else if n == 1 then 0 else c + n - 2
    {
      result := Search(false);
      if result != -1 {
        return;
      }
      result := Search(true);
    }
  }
}
