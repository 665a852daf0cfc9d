/** The watchdog of a server connection: the counters `wdrCount` and `pendingWatchDog` in
    the CONNECTED state of `_DiaThread` (DiaProxy/source/DiaThread.cpp). */
module Watchdog {
  const WDR_TIME: nat := 1000
  const MAX_WDR_PENDING: nat := 5

  const PERIOD: nat := WDR_TIME + 1
  const LIMIT: nat := MAX_WDR_PENDING * PERIOD

  /** What came of the pending messages: the socket took none, `sendPendingMessage` was
      content, it was not but the connection stands, or it took the connection down. */
  datatype Sending = Idle | Through | Stuck | Down

  /** One turn of the CONNECTED state. `readFails` and `requestFails` say whether the reading
      of a message, or the sending of a watchdog request, would end the connection. */
  datatype Round = Round(sending: Sending, readable: bool, readFails: bool, requestFails: bool)

  predicate Quiet(r: Round)
  {
    r.sending in {Idle, Stuck} && !r.readable
  }

  // ------------------------------------------- one number instead of two

  /** The rounds without a sign of life, and whether the connection is up. */
  datatype Line = Line(silence: nat, connected: bool)

  datatype Event = Turn(round: Round) | Reconnected

  function SilenceIn(l: Line, r: Round): (n: nat)
  {
    if r.sending == Through then 0 else l.silence
  }

  /** The request that a round sends. */
  predicate Requests(l: Line, r: Round, skip: bool)
  {
    && !skip && r.sending != Down && !r.readable
    && SilenceIn(l, r) < LIMIT && (SilenceIn(l, r) + 1) % PERIOD == 0
  }

  /** The round gives the connection up for lack of answers. */
  predicate Expires(l: Line, r: Round)
  {
    Quiet(r) && l.silence >= LIMIT
  }

  function Next(l: Line, e: Event, skip: bool): (l': Line)
  {
    match e
    case Reconnected => Line(l.silence % PERIOD, true)
    case Turn(r) =>
      if r.sending == Down then Line(l.silence, false)
      else if r.readable then Line(0, !r.readFails)
      else if Expires(l, r) then Line(l.silence, false)
      else Line(if skip then SilenceIn(l, r) else SilenceIn(l, r) + 1,
                !(Requests(l, r, skip) && r.requestFails))
  }

  function After(l: Line, events: seq<Event>, skip: bool): (l': Line)
  {
    if events == [] then l else Next(After(l, events[..|events| - 1], skip), events[|events| - 1], skip)
  }

  /** Rounds happen on connections that are up, reconnections on those that are not. */
  predicate IsRun(l: Line, events: seq<Event>, skip: bool)
  {
    if events == [] then true
    else
      var n := |events| - 1;
      IsRun(l, events[..n], skip) && (events[n].Turn? <==> After(l, events[..n], skip).connected)
  }

  const START := Line(0, true)

  // --------------------------------------------------------- every run

  /** The silence never exceeds the limit, so no more than MAX_WDR_PENDING requests are ever
      unanswered; with watchdogs switched off there is no silence at all. */
  lemma {:induction false} Bounded(events: seq<Event>, skip: bool)
    ensures After(START, events, skip).silence <= LIMIT
    ensures After(START, events, skip).silence / PERIOD <= MAX_WDR_PENDING
    ensures skip ==> After(START, events, skip).silence == 0
  {
    if events != [] {
      Bounded(events[..|events| - 1], skip);
    }
  }

  /** The last `k` rounds read nothing, and only the first of them may have sent something. */
  predicate LastSilent(events: seq<Event>, k: nat)
  {
    && k <= |events|
    && (forall i :: |events| - k <= i < |events| ==> events[i].Turn? && !events[i].round.readable)
    && (forall i :: |events| - k < i < |events| ==> Quiet(events[i].round))
  }

  predicate AllSilent(events: seq<Event>)
  {
    forall i :: 0 <= i < |events| ==> events[i].Turn? && Quiet(events[i].round)
  }

  /** In one life of a connection, which starts with a silence of `s`, the silence is what it
      is called: the greatest number of rounds without a sign of life, looking back from now;
      and if there was none in this life, all its rounds and what it started with. */
  lemma {:induction false} SilenceIsSilent(s: nat, events: seq<Event>, k: nat)
    requires IsRun(Line(s, true), events, false) && After(Line(s, true), events, false).connected
    requires forall i :: 0 <= i < |events| ==> events[i].Turn?
    ensures k <= After(Line(s, true), events, false).silence
            <==> LastSilent(events, k) || (AllSilent(events) && k <= s + |events|)
    decreases |events|
  {
    if events != [] && k > 0 {
      var n := |events| - 1;
      LastSilentStep(events, k);
      AllSilentStep(events);
      SilenceIsSilent(s, events[..n], k - 1);
    }
  }

  lemma AllSilentStep(events: seq<Event>)
    requires events != [] && events[|events| - 1].Turn?
    ensures var n := |events| - 1;
            AllSilent(events) <==> AllSilent(events[..n]) && Quiet(events[n].round)
  {
    var n := |events| - 1;
    assert forall i :: 0 <= i < n ==> events[..n][i] == events[i];
  }

  lemma LastSilentStep(events: seq<Event>, k: nat)
    requires k > 0 && events != [] && events[|events| - 1].Turn?
    ensures var n := |events| - 1;
            var r := events[n].round;
            LastSilent(events, k) <==> !r.readable && (k > 1 ==> Quiet(r)) && LastSilent(events[..n], k - 1)
  {
    var n := |events| - 1;
    var before := events[..n];
    assert forall i :: 0 <= i < n ==> before[i] == events[i];
    if !events[n].round.readable && (k > 1 ==> Quiet(events[n].round)) && LastSilent(before, k - 1) {
      assert forall i :: |events| - k <= i < n ==> before[i].Turn? && !before[i].round.readable;
      assert forall i :: |events| - k < i < n ==> Quiet(before[i].round);
    }
    if LastSilent(events, k) {
      assert forall i :: n - (k - 1) <= i < n ==> events[i].Turn? && !events[i].round.readable;
      assert forall i :: n - (k - 1) < i < n ==> Quiet(events[i].round);
    }
  }

  /** The connection is given up in a quiet round exactly if the MAX_WDR_PENDING * (WDR_TIME + 1)
      rounds before it were silent: never earlier, never later. Only what was left in `wdrCount`
      at the start of its life counts as silence too, as long as there was no sign of life. */
  lemma GivenUpExactly(s: nat, events: seq<Event>, r: Round)
    requires IsRun(Line(s, true), events, false) && After(Line(s, true), events, false).connected
    requires forall i :: 0 <= i < |events| ==> events[i].Turn?
    ensures Expires(After(Line(s, true), events, false), r) <==>
              Quiet(r) && (LastSilent(events, LIMIT) || (AllSilent(events) && s + |events| >= LIMIT))
  {
    SilenceIsSilent(s, events, LIMIT);
  }

  /** Every later life starts with part of a period: what had passed of it when the connection
      before was lost. So in any run, after any number of reconnections, the condition above
      decides, with less than a period for `s`; in the first life `s` is zero. */
  lemma LivesOf(before: seq<Event>, rounds: seq<Event>, r: Round)
    requires IsRun(START, before + [Reconnected] + rounds, false)
    requires After(START, before + [Reconnected] + rounds, false).connected
    requires forall i :: 0 <= i < |rounds| ==> rounds[i].Turn?
    ensures var s := After(START, before, false).silence % PERIOD;
            && s < PERIOD
            && (Expires(After(START, before + [Reconnected] + rounds, false), r) <==>
                  Quiet(r) && (LastSilent(rounds, LIMIT) || (AllSilent(rounds) && s + |rounds| >= LIMIT)))
  {
    var first := before + [Reconnected];
    var l := After(START, first, false);
    assert first[..|before|] == before;
    assert l == Line(After(START, before, false).silence % PERIOD, true);
    RunFrom(START, first, rounds, false);
    GivenUpExactly(l.silence, rounds, r);
  }

  lemma {:induction false} RunFrom(l: Line, a: seq<Event>, b: seq<Event>, skip: bool)
    ensures After(l, a + b, skip) == After(After(l, a, skip), b, skip)
    ensures IsRun(l, a + b, skip) <==> IsRun(l, a, skip) && IsRun(After(l, a, skip), b, skip)
    decreases |b|
  {
    if b == [] {
      assert a + b == a;
    } else {
      var n := |b| - 1;
      assert (a + b)[..|a + b| - 1] == a + b[..n] && (a + b)[|a + b| - 1] == b[n];
      RunFrom(l, a, b[..n], skip);
    }
  }

  // --------------------------------------------- the end of a connection

  /** The rounds since the last sign of life, this one included if it was a sending; `s`
      were left over from the life before. */
  function Silence(s: nat, rounds: seq<Round>): (n: nat)
  {
    if rounds == [] then s
    else
      var r := rounds[|rounds| - 1];
      if r.readable then 0
      else if r.sending == Through then 1
      else Silence(s, rounds[..|rounds| - 1]) + 1
  }

  /** Round number `i` sends a watchdog request: nothing came in, and the silence is one,
      two, ... or five times 1001 rounds long. */
  predicate Asks(s: nat, rounds: seq<Round>, i: nat, skip: bool)
    requires i < |rounds|
  {
    && !skip && rounds[i].sending != Down && !rounds[i].readable
    && Silence(s, rounds[..i + 1]) in {1001, 2002, 3003, 4004, 5005}
  }

  /** Round number `i` ends the connection: the sending took it down, the reading failed, the
      request could not be sent, or 5005 silent rounds have passed and this is another. */
  predicate Ends(s: nat, rounds: seq<Round>, i: nat, skip: bool)
    requires i < |rounds|
  {
    || rounds[i].sending == Down
    || (rounds[i].readable && rounds[i].readFails)
    || (Asks(s, rounds, i, skip) && rounds[i].requestFails)
    || (!skip && Quiet(rounds[i]) && Silence(s, rounds[..i]) >= 5005)
  }

  function Turns(rounds: seq<Round>): (events: seq<Event>)
    ensures |events| == |rounds| && forall i :: 0 <= i < |events| ==> events[i] == Turn(rounds[i])
  {
    seq(|rounds|, i requires 0 <= i < |rounds| => Turn(rounds[i]))
  }

  predicate Outlives(s: nat, rounds: seq<Round>, skip: bool)
  {
    forall i :: 0 <= i < |rounds| ==> !Ends(s, rounds, i, skip)
  }

  lemma OutlivesStep(s: nat, rounds: seq<Round>, skip: bool)
    requires rounds != []
    ensures var n := |rounds| - 1;
            Outlives(s, rounds, skip) <==> Outlives(s, rounds[..n], skip) && !Ends(s, rounds, n, skip)
  {
    var n := |rounds| - 1;
    var before := rounds[..n];
    forall i | 0 <= i < n ensures Ends(s, before, i, skip) <==> Ends(s, rounds, i, skip) {
      assert before[..i] == rounds[..i] && before[..i + 1] == rounds[..i + 1] && before[i] == rounds[i];
    }
    if Outlives(s, rounds, skip) {
      assert forall i :: 0 <= i < n ==> !Ends(s, rounds, i, skip);
    }
  }

  lemma TurnsStep(rounds: seq<Round>)
    requires rounds != []
    ensures Turns(rounds)[..|rounds| - 1] == Turns(rounds[..|rounds| - 1])
  {
  }

  /** One round of a connection that is up, by the silence before it. */
  lemma RoundExactly(l: Line, s: nat, rounds: seq<Round>, skip: bool)
    requires rounds != [] && s <= 5005 && l.silence <= 5005 && (skip ==> l.silence == 0)
    requires !skip ==> l.silence == Silence(s, rounds[..|rounds| - 1])
    ensures var n := |rounds| - 1;
            var l' := Next(l, Turn(rounds[n]), skip);
            && (l'.connected <==> !Ends(s, rounds, n, skip))
            && (Requests(l, rounds[n], skip) <==> Asks(s, rounds, n, skip))
            && l'.silence <= 5005 && (skip ==> l'.silence == 0)
            && (!skip && l'.connected ==> l'.silence == Silence(s, rounds))
            && (!l'.connected ==> l'.silence % 1001 == if rounds[n].sending == Down then l.silence % 1001 else 0)
  {
    var n := |rounds| - 1;
    assert rounds[..n + 1] == rounds;
  }

  /** When a connection is up, by its rounds alone: it is after them exactly if none of them
      ended it. With watchdogs switched off only a sending or a reading does that. */
  lemma {:induction false} UpExactly(s: nat, rounds: seq<Round>, skip: bool)
    requires s <= 5005 && (skip ==> s == 0)
    ensures var l := Line(s, true);
            && ((IsRun(l, Turns(rounds), skip) && After(l, Turns(rounds), skip).connected)
                <==> Outlives(s, rounds, skip))
            && (Outlives(s, rounds, skip) ==>
                  After(l, Turns(rounds), skip).silence == (if skip then 0 else Silence(s, rounds)) <= 5005)
    decreases |rounds|
  {
    var l := Line(s, true);
    if rounds != [] {
      var n := |rounds| - 1;
      TurnsStep(rounds);
      UpExactly(s, rounds[..n], skip);
      OutlivesStep(s, rounds, skip);
      if Outlives(s, rounds[..n], skip) {
        RoundExactly(After(l, Turns(rounds[..n]), skip), s, rounds, skip);
      }
    }
  }

  /** Which rounds of a connection send a watchdog request. */
  lemma RequestsExactly(s: nat, rounds: seq<Round>, skip: bool)
    requires s <= 5005 && (skip ==> s == 0)
    requires rounds != [] && Outlives(s, rounds[..|rounds| - 1], skip)
    ensures var n := |rounds| - 1;
            Requests(After(Line(s, true), Turns(rounds[..n]), skip), rounds[n], skip) <==> Asks(s, rounds, n, skip)
  {
    var n := |rounds| - 1;
    UpExactly(s, rounds[..n], skip);
    RoundExactly(After(Line(s, true), Turns(rounds[..n]), skip), s, rounds, skip);
  }

  /** What a connection that was lost in its last round leaves of the silence to the next one:
      part of a period if the sending took it down, and otherwise nothing. */
  lemma LeftExactly(s: nat, rounds: seq<Round>, skip: bool)
    requires s <= 5005 && (skip ==> s == 0) && rounds != []
    requires Outlives(s, rounds[..|rounds| - 1], skip) && Ends(s, rounds, |rounds| - 1, skip)
    ensures var n := |rounds| - 1;
            Next(After(Line(s, true), Turns(rounds), skip), Reconnected, skip)
            == Line(if !skip && rounds[n].sending == Down then Silence(s, rounds[..n]) % 1001 else 0, true)
  {
    var n := |rounds| - 1;
    TurnsStep(rounds);
    UpExactly(s, rounds[..n], skip);
    RoundExactly(After(Line(s, true), Turns(rounds[..n]), skip), s, rounds, skip);
  }

  /** Every life in every run, after any number of reconnections. */
  lemma UpInRuns(before: seq<Event>, rounds: seq<Round>, skip: bool)
    requires IsRun(START, before, skip) && !After(START, before, skip).connected
    ensures var s := After(START, before, skip).silence % 1001;
            var events := before + [Reconnected] + Turns(rounds);
            (IsRun(START, events, skip) && After(START, events, skip).connected) <==> Outlives(s, rounds, skip)
  {
    var first := before + [Reconnected];
    assert first[..|before|] == before;
    Bounded(before, skip);
    RunFrom(START, first, Turns(rounds), skip);
    UpExactly(After(START, first, skip).silence, rounds, skip);
  }

  /** With watchdogs switched off, nothing but a failed sending or reading ends a connection. */
  lemma UpWithoutWatchdogs(before: seq<Event>, rounds: seq<Round>)
    requires IsRun(START, before, true) && !After(START, before, true).connected
    ensures var events := before + [Reconnected] + Turns(rounds);
            (IsRun(START, events, true) && After(START, events, true).connected) <==>
              forall r :: r in rounds ==> r.sending != Down && !(r.readable && r.readFails)
  {
    UpInRuns(before, rounds, true);
    var s := After(START, before, true).silence % 1001;
    assert forall i :: 0 <= i < |rounds| ==>
        (Ends(s, rounds, i, true) <==> rounds[i].sending == Down || (rounds[i].readable && rounds[i].readFails));
    if Outlives(s, rounds, true) {
      forall r | r in rounds ensures r.sending != Down && !(r.readable && r.readFails) {
        var i :| 0 <= i < |rounds| && rounds[i] == r;
        assert !Ends(s, rounds, i, true);
      }
    }
  }

  // ------------------------------------------------- a quiet connection

  /** Quiet rounds whose requests can be sent. */
  predicate AllQuiet(events: seq<Event>)
  {
    forall i :: 0 <= i < |events| ==> events[i].Turn? && Quiet(events[i].round) && !events[i].round.requestFails
  }

  /** From a silence of `s` the connection stays up for as many quiet rounds as are missing
      to the limit. The round behind them gives it up, and sends no request. */
  lemma {:induction false} QuietFrom(s: nat, events: seq<Event>, r: Round)
    requires s + |events| <= LIMIT && AllQuiet(events) && Quiet(r)
    ensures After(Line(s, true), events, false) == Line(s + |events|, true)
    ensures IsRun(Line(s, true), events, false)
    ensures Requests(After(Line(s, true), events, false), r, false) <==>
              s + |events| < LIMIT && (s + |events| + 1) % PERIOD == 0
    ensures Expires(After(Line(s, true), events, false), r) <==> s + |events| == LIMIT
    decreases |events|
  {
    if events != [] {
      var n := |events| - 1;
      var before := events[..n];
      QuietFrom(s, before, r);
    }
  }

  /** From zeroed counters the requests go out in the quiet rounds number k * (WDR_TIME + 1)
      for k from 1 to MAX_WDR_PENDING and in no other, and the round after the last of
      them gives the connection up. */
  lemma RequestRounds(events: seq<Event>, r: Round)
    requires |events| <= LIMIT && AllQuiet(events) && Quiet(r)
    ensures var number := |events| + 1;
            && After(START, events, false).connected
            && (Requests(After(START, events, false), r, false) <==>
                  exists k :: 1 <= k <= MAX_WDR_PENDING && number == Times(k))
            && (Expires(After(START, events, false), r) <==> number == LIMIT + 1)
  {
    QuietFrom(0, events, r);
    MultipleOfPeriod(|events| + 1);
  }

  lemma MultipleOfPeriod(n: nat)
    requires 1 <= n <= LIMIT + 1
    ensures (n <= LIMIT && n % PERIOD == 0) <==> exists k :: 1 <= k <= MAX_WDR_PENDING && n == Times(k)
  {
    if n <= LIMIT && n % PERIOD == 0 {
      assert n == Times(n / PERIOD);
    }
    forall k | 1 <= k <= MAX_WDR_PENDING && n == Times(k) ensures n <= LIMIT && n % PERIOD == 0 {
      Split(k, 0);
    }
  }

  lemma Split(periods: nat, more: nat)
    requires more <= WDR_TIME
    ensures (periods * PERIOD + more) % PERIOD == more
    ensures (periods * PERIOD + more + 1) % PERIOD == 0 <==> more == WDR_TIME
  {
  }

  function Times(k: nat): (n: nat)
  {
    k * PERIOD
  }

  /** `wdrCount` outlives the connection: a reconnection starts with the part of a period
      that had passed, and the next quiet connection is given up that much earlier. */
  lemma EarlierAfterReconnection(l: Line, events: seq<Event>, r: Round)
    requires l.silence % PERIOD + |events| == LIMIT && AllQuiet(events) && Quiet(r)
    ensures Expires(After(Next(l, Reconnected, false), events, false), r)
    ensures |events| == LIMIT <==> l.silence % PERIOD == 0
  {
    QuietFrom(l.silence % PERIOD, events, r);
  }

  // ---------------------------------------------------- the two counters

  class Counters {
    var wdrCount: nat
    var pendingWatchDog: nat
    var connected: bool
    const skip: bool

    /** The two counters are the silence, split into periods. */
    ghost function Now(): (l: Line)
      reads this
    {
      Line(pendingWatchDog * PERIOD + wdrCount, connected)
    }

    ghost predicate Valid()
      reads this
    {
      wdrCount <= WDR_TIME && pendingWatchDog <= MAX_WDR_PENDING && Now().silence <= LIMIT
      && (skip ==> Now().silence == 0)
    }

    constructor (skip: bool)
      ensures Valid() && Now() == START && this.skip == skip
    {
      wdrCount, pendingWatchDog, connected, this.skip := 0, 0, true, skip;
    }

    method Iterate(r: Round) returns (sent: bool)
      requires Valid() && connected
      modifies this`wdrCount, this`pendingWatchDog, this`connected
      ensures Valid() && Now() == Next(old(Now()), Turn(r), skip)
      ensures sent == Requests(old(Now()), r, skip)
    {
      sent := false;
      if r.sending == Through {
        wdrCount, pendingWatchDog := 0, 0;
      } else if r.sending == Down {
        connected := false;
        return;
      }
      if r.readable {
        wdrCount, pendingWatchDog := 0, 0;
        connected := !r.readFails;
      } else {
        sent := Unread(r.requestFails);
      }
    }

    /** Nothing to read. */
    method Unread(requestFails: bool) returns (sent: bool)
      requires Valid() && connected
      modifies this`wdrCount, this`pendingWatchDog, this`connected
      ensures Valid()
      ensures var s := old(Now().silence);
              && Now().silence == (if s >= LIMIT || skip then s else s + 1)
              && sent == (!skip && s < LIMIT && (s + 1) % PERIOD == 0)
              && connected == (s < LIMIT && !(sent && requestFails))
    {
      sent := false;
      Split(pendingWatchDog, wdrCount);
      if pendingWatchDog >= MAX_WDR_PENDING {
        connected := false;
        return;
      }
      if !skip {
        wdrCount := wdrCount + 1;
        if wdrCount > WDR_TIME {
          sent := true;
          connected := !requestFails;
          wdrCount := 0;
          pendingWatchDog := pendingWatchDog + 1;
        }
      }
    }

    /** `cleanDiaConnection` and the way back to CONNECTED. */
    method Reconnect()
      requires Valid() && !connected
      modifies this`pendingWatchDog, this`connected
      ensures Valid() && Now() == Next(old(Now()), Reconnected, skip)
    {
      pendingWatchDog := 0;
      connected := true;
    }
  }
}
