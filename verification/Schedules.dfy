/** The environment of the server-side reader (DiaProxy/source/DiaThread.cpp) as a schedule of
    turns, and what a schedule makes of the octets on the stream. Each turn of a waiting loop
    finds the exit flag raised or not, the connection marked BROKEN by another thread or not,
    and the socket quiet, readable, closed or failing. */
module Schedules {
  import opened Octets
  import opened Codec
  import opened Framing

  const HEADER_RETRIES: nat := 20

  /** `select` found nothing; or `recv` returned up to `n` octets, zero, or an error. */
  datatype Io = Quiet | Data(n: nat) | AtEnd | Failing

  datatype Turn = Turn(exit: bool, broken: bool, io: Io)

  predicate Alive(turn: Turn)
  {
    !turn.exit && !turn.broken
  }

  // ------------------------------------------------------------- the filling loops

  /** The octets a turn brings when `need` are asked for and `left` are still to come. */
  function Got(io: Io, need: nat, left: nat): (n: nat)
    ensures n <= need && n <= left
  {
    if !io.Data? then 0
    else if io.n <= need && io.n <= left then io.n
    else if need <= left then need
    else left
  }

  /** The loop goes on after this turn. `patience` is the number of quiet turns at which it
      gives up, if there is one. */
  predicate GoesOn(turn: Turn, need: nat, left: nat, patience: Option<nat>)
  {
    Alive(turn) && if turn.io == Quiet then patience != Some(1) else Got(turn.io, need, left) > 0
  }

  function Less(patience: Option<nat>, turn: Turn): (p: Option<nat>)
  {
    if patience.Some? && turn.io == Quiet && patience.value > 0 then Some(patience.value - 1) else patience
  }

  /** The turns bring all the octets needed. */
  predicate Delivers(turns: seq<Turn>, need: nat, left: nat, patience: Option<nat>)
    decreases |turns|
  {
    need == 0
    || (&& turns != [] && GoesOn(turns[0], need, left, patience)
        && var n := Got(turns[0].io, need, left);
           Delivers(turns[1..], need - n, left - n, Less(patience, turns[0])))
  }

  /** How many turns that takes. */
  function Taken(turns: seq<Turn>, need: nat, left: nat, patience: Option<nat>): (k: nat)
    requires Delivers(turns, need, left, patience)
    ensures k <= |turns|
    decreases |turns|
  {
    if need == 0 then 0
    else
      var n := Got(turns[0].io, need, left);
      1 + Taken(turns[1..], need - n, left - n, Less(patience, turns[0]))
  }

  /** No failure: the socket is quiet, or there is something to read. */
  predicate Calm(turn: Turn)
  {
    Alive(turn) && (turn.io == Quiet || (turn.io.Data? && turn.io.n > 0))
  }

  /** What the first `k` turns offer, and how many of them are quiet. */
  function Offered(turns: seq<Turn>, k: nat): (n: nat)
    requires k <= |turns|
  {
    if k == 0 then 0 else (if turns[0].io.Data? then turns[0].io.n else 0) + Offered(turns[1..], k - 1)
  }

  function Quiets(turns: seq<Turn>, k: nat): (n: nat)
    requires k <= |turns|
  {
    if k == 0 then 0 else (if turns[0].io == Quiet then 1 else 0) + Quiets(turns[1..], k - 1)
  }

  /** The first `k` turns are free of failures, offer enough, and are not too quiet. */
  predicate Suffices(turns: seq<Turn>, k: nat, need: nat, patience: Option<nat>)
  {
    && k <= |turns| && (forall i :: 0 <= i < k ==> Calm(turns[i]))
    && Offered(turns, k) >= need && (patience.Some? ==> Quiets(turns, k) < patience.value)
  }

  /** The exact condition: the stream holds the octets, and some first turns suffice. */
  lemma {:induction false} DeliversExactly(turns: seq<Turn>, need: nat, left: nat, patience: Option<nat>)
    requires patience != Some(0)
    ensures Delivers(turns, need, left, patience) <==>
              need <= left && exists k :: 0 <= k && Suffices(turns, k, need, patience)
    decreases |turns|
  {
    if need == 0 {
      assert Suffices(turns, 0, need, patience);
    } else if turns != [] && GoesOn(turns[0], need, left, patience) {
      var n := Got(turns[0].io, need, left);
      DeliversExactly(turns[1..], need - n, left - n, Less(patience, turns[0]));
      if Delivers(turns, need, left, patience) {
        var k :| 0 <= k && Suffices(turns[1..], k, need - n, Less(patience, turns[0]));
        MoreSuffices(turns, k, need, left, patience);
      }
      if k :| 0 <= k && Suffices(turns, k, need, patience) && need <= left {
        RestSuffices(turns, k, need, left, patience);
      }
    }
  }

  lemma MoreSuffices(turns: seq<Turn>, k: nat, need: nat, left: nat, patience: Option<nat>)
    requires turns != [] && patience != Some(0) && GoesOn(turns[0], need, left, patience)
    requires Suffices(turns[1..], k, need - Got(turns[0].io, need, left), Less(patience, turns[0]))
    ensures Suffices(turns, k + 1, need, patience)
  {
    assert forall i :: 1 <= i < k + 1 ==> turns[i] == turns[1..][i - 1];
  }

  lemma RestSuffices(turns: seq<Turn>, k: nat, need: nat, left: nat, patience: Option<nat>)
    requires turns != [] && 0 < need <= left && GoesOn(turns[0], need, left, patience)
    requires Suffices(turns, k, need, patience)
    ensures k > 0
    ensures Suffices(turns[1..], k - 1, need - Got(turns[0].io, need, left), Less(patience, turns[0]))
  {
  }

  lemma {:induction false} OnlyWhatIsThere(turns: seq<Turn>, need: nat, left: nat, patience: Option<nat>)
    requires Delivers(turns, need, left, patience)
    ensures need <= left
    decreases |turns|
  {
    if need > 0 {
      var n := Got(turns[0].io, need, left);
      OnlyWhatIsThere(turns[1..], need - n, left - n, Less(patience, turns[0]));
    }
  }

  // ------------------------------------------------------------------ one message

  /** The header is read: something in the first `recv`, the rest in the turns that follow,
      of which fewer than twenty are quiet. */
  predicate HeaderArrives(turns: seq<Turn>, first: Io, left: nat)
  {
    var n := Got(first, HEADER_LENGTH, left);
    n > 0 && Delivers(turns, HEADER_LENGTH - n, left - n, Some(HEADER_RETRIES))
  }

  function HeaderTurns(turns: seq<Turn>, first: Io, left: nat): (k: nat)
    requires HeaderArrives(turns, first, left)
    ensures k <= |turns|
  {
    var n := Got(first, HEADER_LENGTH, left);
    Taken(turns, HEADER_LENGTH - n, left - n, Some(HEADER_RETRIES))
  }

  /** That is: the header is read exactly if the stream holds twenty octets, the first piece is
      not empty, and some first turns, fewer than twenty of them quiet, are free of failures and
      offer the rest. */
  lemma HeaderExactly(turns: seq<Turn>, first: Io, left: nat)
    ensures HeaderArrives(turns, first, left) <==>
              && first.Data? && first.n > 0 && left >= 20
              && var need := if first.n >= 20 then 0 else 20 - first.n;
                 exists k :: 0 <= k && Suffices(turns, k, need, Some(20))
  {
    var n := Got(first, 20, left);
    DeliversExactly(turns, 20 - n, left - n, Some(20));
  }

  /** The wait for the body ends: its very first turn finds the socket ready. The set given to
      `select` is not filled in again, so after a quiet turn no other can. */
  predicate WaitEnds(turns: seq<Turn>)
  {
    turns != [] && Alive(turns[0]) && turns[0].io != Quiet
  }

  /** What is still to be read after the first `recv` of the body: one octet too many if that
      failed, which goes unnoticed. */
  function BodyNeed(io: Io, body: nat, left: nat): (need: nat)
  {
    if io == Failing then body + 1 else body - Got(io, body, left)
  }

  predicate BodyArrives(turns: seq<Turn>, body: nat, left: nat)
  {
    WaitEnds(turns)
    && var io := turns[0].io;
       Delivers(turns[1..], BodyNeed(io, body, left), left - Got(io, body, left), None)
  }

  /** That is: the first turn is not quiet, and behind it some first turns, however many of them
      quiet, are free of failures and offer what is needed, which the stream holds: the rest of
      the body after what the first turn brought, or if that failed one octet more than all. */
  lemma BodyExactly(turns: seq<Turn>, body: nat, left: nat)
    ensures BodyArrives(turns, body, left) <==>
              && turns != [] && Alive(turns[0]) && turns[0].io != Quiet
              && var got := Got(turns[0].io, body, left);
                 var need := if turns[0].io == Failing then body + 1 else body - got;
                 need <= left - got && exists k :: 0 <= k && Suffices(turns[1..], k, need, None)
  {
    if WaitEnds(turns) {
      var got := Got(turns[0].io, body, left);
      DeliversExactly(turns[1..], BodyNeed(turns[0].io, body, left), left - got, None);
    }
  }

  function BodyTurns(turns: seq<Turn>, body: nat, left: nat): (k: nat)
    requires BodyArrives(turns, body, left)
    ensures 1 <= k <= |turns|
  {
    var io := turns[0].io;
    1 + Taken(turns[1..], BodyNeed(io, body, left), left - Got(io, body, left), None)
  }

  /** A whole message arrives from the front of `s`. */
  predicate Arrives(turns: seq<Turn>, first: Io, s: seq<Byte>)
  {
    && |s| >= HEADER_LENGTH && MessageLength(s) >= HEADER_LENGTH && HeaderArrives(turns, first, |s|)
    && BodyArrives(turns[HeaderTurns(turns, first, |s|)..], MessageLength(s) - HEADER_LENGTH, |s| - HEADER_LENGTH)
  }

  function MessageTurns(turns: seq<Turn>, first: Io, s: seq<Byte>): (k: nat)
    requires Arrives(turns, first, s)
    ensures k <= |turns|
  {
    var h := HeaderTurns(turns, first, |s|);
    h + BodyTurns(turns[h..], MessageLength(s) - HEADER_LENGTH, |s| - HEADER_LENGTH)
  }

  /** The first `recv` of the body fails: the reader slips back by one octet. */
  predicate Slips(turns: seq<Turn>, first: Io, s: seq<Byte>)
    requires Arrives(turns, first, s)
  {
    turns[HeaderTurns(turns, first, |s|)].io == Failing
  }

  /** Once the header has arrived, the turns behind it decide. */
  lemma HeaderThenBody(turns: seq<Turn>, first: Io, s: seq<Byte>, rest: seq<Turn>)
    requires |s| >= HEADER_LENGTH && MessageLength(s) >= HEADER_LENGTH && HeaderArrives(turns, first, |s|)
    requires rest == turns[HeaderTurns(turns, first, |s|)..]
    ensures var body, left := MessageLength(s) - HEADER_LENGTH, |s| - HEADER_LENGTH;
            && (Arrives(turns, first, s) <==> BodyArrives(rest, body, left))
            && (BodyArrives(rest, body, left) ==>
                  && MessageTurns(turns, first, s) == HeaderTurns(turns, first, |s|) + BodyTurns(rest, body, left)
                  && (Slips(turns, first, s) <==> rest[0].io == Failing))
  {
  }

  lemma WholeMessageThere(turns: seq<Turn>, first: Io, s: seq<Byte>)
    requires Arrives(turns, first, s)
    ensures MessageLength(s) + (if Slips(turns, first, s) then 1 else 0) <= |s|
  {
    var h := turns[HeaderTurns(turns, first, |s|)..];
    var io, body, left := h[0].io, MessageLength(s) - HEADER_LENGTH, |s| - HEADER_LENGTH;
    OnlyWhatIsThere(h[1..], BodyNeed(io, body, left), left - Got(io, body, left), None);
  }

  /** What is read of the message in front of `s`: all of it, or after a slip all of its header
      but the last octet and then the octets behind the header. */
  function OctetsRead(s: seq<Byte>, slipped: bool): (m: seq<Byte>)
    requires |s| >= HEADER_LENGTH && MessageLength(s) >= HEADER_LENGTH
    requires MessageLength(s) + (if slipped then 1 else 0) <= |s|
    ensures |m| == MessageLength(s)
  {
    var n := MessageLength(s);
    if slipped then s[..HEADER_LENGTH - 1] + s[HEADER_LENGTH..n + 1] else s[..n]
  }

  /** What a reading comes to, if a whole message arrives. */
  function MessageRead(turns: seq<Turn>, first: Io, s: seq<Byte>): (m: Option<seq<Byte>>)
    ensures m.Some? <==> Arrives(turns, first, s)
    ensures m.Some? ==> |s| >= HEADER_LENGTH && HEADER_LENGTH <= |m.value| == MessageLength(s)
  {
    if !Arrives(turns, first, s) then None
    else
      WholeMessageThere(turns, first, s);
      Some(OctetsRead(s, Slips(turns, first, s)))
  }

  /** One quiet turn between header and body is the end: whatever follows, the reading never
      completes. */
  lemma QuietBeforeBody(turns: seq<Turn>, first: Io, s: seq<Byte>, more: seq<Turn>)
    requires HeaderArrives(turns, first, |s|)
    requires HeaderTurns(turns, first, |s|) < |turns| && turns[HeaderTurns(turns, first, |s|)].io == Quiet
    ensures !Arrives(turns + more, first, s)
  {
    var n := Got(first, HEADER_LENGTH, |s|);
    TakenEarly(turns, more, HEADER_LENGTH - n, |s| - n, Some(HEADER_RETRIES));
  }

  /** Turns behind those needed change nothing. */
  lemma {:induction false} TakenEarly(a: seq<Turn>, b: seq<Turn>, need: nat, left: nat, patience: Option<nat>)
    requires Delivers(a, need, left, patience)
    ensures Delivers(a + b, need, left, patience)
    ensures Taken(a + b, need, left, patience) == Taken(a, need, left, patience)
    decreases |a|
  {
    if need > 0 {
      assert (a + b)[1..] == a[1..] + b;
      var n := Got(a[0].io, need, left);
      TakenEarly(a[1..], b, need - n, left - n, Less(patience, a[0]));
    }
  }

  // ----------------------------------------------------------------- all messages

  /** The octets a reading takes off the stream. */
  function Consumed(turns: seq<Turn>, first: Io, s: seq<Byte>): (n: nat)
    requires Arrives(turns, first, s)
    ensures 0 < n <= |s|
  {
    WholeMessageThere(turns, first, s);
    MessageLength(s) + (if Slips(turns, first, s) then 1 else 0)
  }

  /** The turns left after a reading, and what is left of the stream. */
  function TurnsAfter(turns: seq<Turn>, first: Io, s: seq<Byte>): (rest: seq<Turn>)
    requires Arrives(turns, first, s)
    ensures |rest| <= |turns|
  {
    turns[MessageTurns(turns, first, s)..]
  }

  function StreamAfter(turns: seq<Turn>, first: Io, s: seq<Byte>): (rest: seq<Byte>)
    requires Arrives(turns, first, s)
  {
    s[Consumed(turns, first, s)..]
  }

  /** The next turn in which there is something to read, and the turns behind it. */
  datatype Attempt = Attempt(first: Io, rest: seq<Turn>)

  function NextAttempt(turns: seq<Turn>): (a: Option<Attempt>)
    ensures a.Some? ==> |a.value.rest| < |turns|
  {
    if turns == [] || !Alive(turns[0]) then None
    else if turns[0].io == Quiet then NextAttempt(turns[1..])
    else Some(Attempt(turns[0].io, turns[1..]))
  }

  /** The messages a connection in service reads, one after the other. After a slip the reader
      goes on with what it has, one octet further than the next header. */
  function Session(turns: seq<Turn>, s: seq<Byte>): (messages: seq<seq<Byte>>)
    decreases |turns|
  {
    match NextAttempt(turns)
    case None => []
    case Some(Attempt(first, rest)) =>
      var m := MessageRead(rest, first, s);
      if m == None then []
      else [m.value] + Session(TurnsAfter(rest, first, s), StreamAfter(rest, first, s))
  }

  /** Every length field that is read on the way is that of a message that fits the buffer. */
  predicate Steady(turns: seq<Turn>, s: seq<Byte>)
    decreases |turns|
  {
    match NextAttempt(turns)
    case None => true
    case Some(Attempt(first, rest)) =>
      && (|s| >= HEADER_LENGTH ==> HEADER_LENGTH <= MessageLength(s) <= BUFFER_SIZE)
      && (Arrives(rest, first, s) ==> Steady(TurnsAfter(rest, first, s), StreamAfter(rest, first, s)))
  }

  /** One turn of it. */
  lemma SessionTurn(turns: seq<Turn>, s: seq<Byte>)
    requires turns != [] && Steady(turns, s)
    ensures var turn, rest := turns[0], turns[1..];
            if !Alive(turn) then Session(turns, s) == []
            else if turn.io == Quiet then Session(turns, s) == [] + Session(rest, s) && Steady(rest, s)
            else
              && (|s| >= HEADER_LENGTH ==> HEADER_LENGTH <= MessageLength(s) <= BUFFER_SIZE)
              && var m := MessageRead(rest, turn.io, s);
                 if m == None then Session(turns, s) == []
                 else
                   && Steady(TurnsAfter(rest, turn.io, s), StreamAfter(rest, turn.io, s))
                   && Session(turns, s)
                      == [m.value] + Session(TurnsAfter(rest, turn.io, s), StreamAfter(rest, turn.io, s))
  {
  }

  /** How many messages are read before the reader slips, if it does. */
  function Clean(turns: seq<Turn>, s: seq<Byte>): (k: nat)
    ensures k <= |Session(turns, s)|
    decreases |turns|
  {
    match NextAttempt(turns)
    case None => 0
    case Some(Attempt(first, rest)) =>
      if !Arrives(rest, first, s) || Slips(rest, first, s) then 0
      else 1 + Clean(TurnsAfter(rest, first, s), StreamAfter(rest, first, s))
  }

  /** A reading without a slip yields the first message of the parse. */
  lemma ReadingParses(turns: seq<Turn>, first: Io, s: seq<Byte>)
    requires Arrives(turns, first, s) && !Slips(turns, first, s)
    ensures Parse(s).messages == [MessageRead(turns, first, s).value] + Parse(StreamAfter(turns, first, s)).messages
    ensures Framed(s) ==> Framed(StreamAfter(turns, first, s))
  {
    WholeMessageThere(turns, first, s);
  }

  /** Whatever the schedule, the messages before a slip are the first ones of the whole-stream
      parse. */
  lemma {:induction false} SessionIsPrefix(turns: seq<Turn>, s: seq<Byte>)
    ensures Session(turns, s)[..Clean(turns, s)] <= Parse(s).messages
    decreases |turns|
  {
    if NextAttempt(turns).Some? {
      var first, rest := NextAttempt(turns).value.first, NextAttempt(turns).value.rest;
      if Arrives(rest, first, s) && !Slips(rest, first, s) {
        ReadingParses(rest, first, s);
        var later, left := TurnsAfter(rest, first, s), StreamAfter(rest, first, s);
        SessionIsPrefix(later, left);
        FrontOf(MessageRead(rest, first, s).value, Session(later, left), Clean(later, left), Parse(left).messages);
      }
    }
  }

  lemma FrontOf(m: seq<Byte>, a: seq<seq<Byte>>, k: nat, b: seq<seq<Byte>>)
    requires k <= |a| && a[..k] <= b
    ensures ([m] + a)[..1 + k] <= [m] + b
  {
    assert ([m] + a)[..1 + k] == [m] + a[..k];
  }

  predicate NeverFails(turns: seq<Turn>)
  {
    forall i :: 0 <= i < |turns| ==> turns[i].io != Failing
  }

  lemma {:induction false} AttemptAmong(turns: seq<Turn>)
    requires NeverFails(turns) && NextAttempt(turns).Some?
    ensures NeverFails(NextAttempt(turns).value.rest)
    decreases |turns|
  {
    if turns[0].io == Quiet {
      AttemptAmong(turns[1..]);
    }
  }

  lemma AttemptUnslipped(turns: seq<Turn>, first: Io, s: seq<Byte>)
    requires NeverFails(turns) && Arrives(turns, first, s)
    ensures !Slips(turns, first, s) && NeverFails(TurnsAfter(turns, first, s))
  {
  }

  /** Without a failing read there is no slip: all messages are in the parse, and a framed stream
      shows no length field but those of its messages. */
  lemma {:induction false} NoSlip(turns: seq<Turn>, s: seq<Byte>)
    requires NeverFails(turns)
    ensures Clean(turns, s) == |Session(turns, s)|
    ensures Framed(s) ==> Steady(turns, s)
    decreases |turns|
  {
    if NextAttempt(turns).Some? {
      var first, rest := NextAttempt(turns).value.first, NextAttempt(turns).value.rest;
      AttemptAmong(turns);
      if Arrives(rest, first, s) {
        AttemptUnslipped(rest, first, s);
        ReadingParses(rest, first, s);
        NoSlip(TurnsAfter(rest, first, s), StreamAfter(rest, first, s));
      }
    }
  }

  /** How one message trickles in without a failure: quiet turns before it, a first piece, the
      turns of the header, the turn that ends the wait, and the turns of the body. */
  datatype Course = Course(idle: seq<Turn>, first: Turn, header: seq<Turn>, wait: Turn, body: seq<Turn>)

  /** These turns suffice, and not without the last of them. */
  predicate JustSuffices(turns: seq<Turn>, need: nat, patience: Option<nat>)
  {
    && Suffices(turns, |turns|, need, patience)
    && (turns != [] ==> Offered(turns, |turns| - 1) < need)
  }

  predicate Brings(turn: Turn)
  {
    Alive(turn) && turn.io.Data? && turn.io.n > 0
  }

  /** Any number of quiet turns before the message and in its body, fewer than twenty in its
      header, and none in the wait; as many octets as the message has. */
  predicate Undisturbed(c: Course, length: nat)
    requires length >= HEADER_LENGTH
  {
    && (forall i :: 0 <= i < |c.idle| ==> Alive(c.idle[i]) && c.idle[i].io == Quiet)
    && Brings(c.first) && Brings(c.wait)
    && JustSuffices(c.header, HEADER_LENGTH - Least(c.first.io.n, HEADER_LENGTH), Some(HEADER_RETRIES))
    && var body := length - HEADER_LENGTH;
       JustSuffices(c.body, body - Least(c.wait.io.n, body), None)
  }

  function Least(a: nat, b: nat): (c: nat)
    ensures c <= b
  {
    if a <= b then a else b
  }

  function TurnsOf(courses: seq<Course>): (turns: seq<Turn>)
  {
    if courses == [] then []
    else
      var c := courses[0];
      c.idle + ([c.first] + (c.header + ([c.wait] + (c.body + TurnsOf(courses[1..])))))
  }

  lemma {:induction false} JustTaken(turns: seq<Turn>, more: seq<Turn>, need: nat, left: nat, patience: Option<nat>)
    requires JustSuffices(turns, need, patience) && need <= left
    ensures Delivers(turns + more, need, left, patience)
    ensures Taken(turns + more, need, left, patience) == |turns|
    decreases |turns|
  {
    if need > 0 {
      var n, all := Got(turns[0].io, need, left), turns + more;
      assert all[0] == turns[0] && all[1..] == turns[1..] + more;
      RestJustSuffices(turns, need, left, patience);
      JustTaken(turns[1..], more, need - n, left - n, Less(patience, turns[0]));
    }
  }

  lemma RestJustSuffices(turns: seq<Turn>, need: nat, left: nat, patience: Option<nat>)
    requires JustSuffices(turns, need, patience) && 0 < need <= left
    ensures turns != [] && GoesOn(turns[0], need, left, patience)
    ensures JustSuffices(turns[1..], need - Got(turns[0].io, need, left), Less(patience, turns[0]))
  {
    RestSuffices(turns, |turns|, need, left, patience);
  }

  lemma HeaderCourse(first: Io, header: seq<Turn>, rest: seq<Turn>, left: nat)
    requires first.Data? && first.n > 0 && left >= HEADER_LENGTH
    requires JustSuffices(header, HEADER_LENGTH - Least(first.n, HEADER_LENGTH), Some(HEADER_RETRIES))
    ensures HeaderArrives(header + rest, first, left) && HeaderTurns(header + rest, first, left) == |header|
  {
    var n := Got(first, HEADER_LENGTH, left);
    JustTaken(header, rest, HEADER_LENGTH - n, left - n, Some(HEADER_RETRIES));
  }

  lemma BodyCourse(wait: Turn, turns: seq<Turn>, more: seq<Turn>, body: nat, left: nat)
    requires Brings(wait) && body <= left && JustSuffices(turns, body - Least(wait.io.n, body), None)
    ensures BodyArrives([wait] + (turns + more), body, left)
    ensures BodyTurns([wait] + (turns + more), body, left) == 1 + |turns|
  {
    var n := Got(wait.io, body, left);
    JustTaken(turns, more, body - n, left - n, None);
    assert ([wait] + (turns + more))[1..] == turns + more;
  }

  /** One message of an undisturbed schedule. */
  lemma CourseArrives(c: Course, more: seq<Turn>, s: seq<Byte>)
    requires |s| >= HEADER_LENGTH && HEADER_LENGTH <= MessageLength(s) <= |s| && Undisturbed(c, MessageLength(s))
    ensures var turns := c.header + ([c.wait] + (c.body + more));
            && Arrives(turns, c.first.io, s) && !Slips(turns, c.first.io, s)
            && turns[MessageTurns(turns, c.first.io, s)..] == more
  {
    var rest := [c.wait] + (c.body + more);
    var turns := c.header + rest;
    HeaderCourse(c.first.io, c.header, rest, |s|);
    BodyCourse(c.wait, c.body, more, MessageLength(s) - HEADER_LENGTH, |s| - HEADER_LENGTH);
    AfterCourse(c.header, c.wait, c.body, more);
    BothArrive(turns, c.first.io, s, |c.header|, 1 + |c.body|);
  }

  lemma AfterCourse(header: seq<Turn>, wait: Turn, body: seq<Turn>, more: seq<Turn>)
    ensures var rest := [wait] + (body + more);
            var turns := header + rest;
            && turns[|header|..] == rest && turns[|header|] == wait
            && turns[|header| + (1 + |body|)..] == more
  {
    var turns := header + ([wait] + (body + more));
    assert turns == (header + [wait] + body) + more;
  }

  lemma BothArrive(turns: seq<Turn>, first: Io, s: seq<Byte>, h: nat, b: nat)
    requires |s| >= HEADER_LENGTH && MessageLength(s) >= HEADER_LENGTH && h < |turns|
    requires HeaderArrives(turns, first, |s|) && HeaderTurns(turns, first, |s|) == h && turns[h].io != Failing
    requires BodyArrives(turns[h..], MessageLength(s) - HEADER_LENGTH, |s| - HEADER_LENGTH)
    requires BodyTurns(turns[h..], MessageLength(s) - HEADER_LENGTH, |s| - HEADER_LENGTH) == b
    ensures Arrives(turns, first, s) && !Slips(turns, first, s) && MessageTurns(turns, first, s) == h + b
  {
  }

  lemma {:induction false} IdleSkipped(idle: seq<Turn>, more: seq<Turn>)
    requires forall i :: 0 <= i < |idle| ==> Alive(idle[i]) && idle[i].io == Quiet
    ensures NextAttempt(idle + more) == NextAttempt(more)
    decreases |idle|
  {
    if idle == [] {
      assert idle + more == more;
    } else {
      assert (idle + more)[1..] == idle[1..] + more;
      IdleSkipped(idle[1..], more);
    }
  }

  lemma CourseRead(c: Course, more: seq<Turn>, s: seq<Byte>)
    requires |s| >= HEADER_LENGTH && HEADER_LENGTH <= MessageLength(s) <= |s| && Undisturbed(c, MessageLength(s))
    ensures var n := MessageLength(s);
            Session(c.idle + ([c.first] + (c.header + ([c.wait] + (c.body + more)))), s)
            == [s[..n]] + Session(more, s[n..])
  {
    var turns := c.header + ([c.wait] + (c.body + more));
    IdleSkipped(c.idle, [c.first] + turns);
    assert ([c.first] + turns)[1..] == turns;
    CourseArrives(c, more, s);
    assert TurnsAfter(turns, c.first.io, s) == more;
    AttemptRead(c.idle + ([c.first] + turns), c.first.io, turns, s);
    Unslipped(turns, c.first.io, s);
  }

  lemma AttemptRead(all: seq<Turn>, first: Io, rest: seq<Turn>, s: seq<Byte>)
    requires NextAttempt(all) == Some(Attempt(first, rest)) && Arrives(rest, first, s)
    ensures Session(all, s)
            == [MessageRead(rest, first, s).value] + Session(TurnsAfter(rest, first, s), StreamAfter(rest, first, s))
  {
    assert MessageRead(rest, first, s).Some?;
  }

  lemma Unslipped(rest: seq<Turn>, first: Io, s: seq<Byte>)
    requires Arrives(rest, first, s) && !Slips(rest, first, s)
    ensures MessageLength(s) <= |s| && MessageRead(rest, first, s).value == s[..MessageLength(s)]
    ensures StreamAfter(rest, first, s) == s[MessageLength(s)..]
  {
    WholeMessageThere(rest, first, s);
  }

  /** Nothing is missed. For every sequence of messages and every schedule in which each of
      them trickles in undisturbed, exactly these messages are read. */
  lemma {:induction false} NothingMissed(messages: seq<seq<Byte>>, courses: seq<Course>)
    requires |courses| == |messages|
    requires forall i :: 0 <= i < |messages| ==>
               |messages[i]| >= HEADER_LENGTH && MessageLength(messages[i]) == |messages[i]|
               && Undisturbed(courses[i], |messages[i]|)
    ensures Session(TurnsOf(courses), Concat(messages)) == messages
    decreases |messages|
  {
    if messages != [] {
      var m, rest := messages[0], Concat(messages[1..]);
      var s := m + rest;
      assert s[..|m|] == m && s[|m|..] == rest;
      SameLength(s, m);
      CourseRead(courses[0], TurnsOf(courses[1..]), s);
      NothingMissed(messages[1..], courses[1..]);
      assert messages == [m] + messages[1..];
    }
  }
}
