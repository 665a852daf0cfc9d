/** Reading from a Diameter server, and the admission of a connection: the header loops and
    `read_message_body`, `receive_CEA` and the end of the CONNECTING state
    (DiaProxy/source/DiaThread.cpp). The octets come from a stream, and what the environment
    does from a schedule. */
module ServerReader {
  import opened Octets
  import opened Codec
  import opened Walkers
  import opened Framing
  import opened Schedules

  const CEA_RETRIES: nat := 2

  datatype Status = Off | ToBeConnected | Connecting | Connected | Disconnected | Broken
                  | MaxConnectionReached | ConfigurationError

  /** How a reading ended: with all octets; given up, the status telling why; with the
      thread's exit; or not yet, when the schedule is over. */
  datatype Reading = Complete | GivenUp | Exited | Unfinished

  class Connection {
    var status: Status
    const buff: array<Byte>
    const stream: seq<Byte>         // the octets the server sends on this socket
    var pos: nat                    // how many of them have been read
    const script: seq<Turn>
    var used: nat                   // how many turns are over

    ghost predicate Valid()
      reads this
    {
      buff.Length == BUFFER_SIZE && pos <= |stream| && used <= |script|
    }

    /** What is still to come, of the stream and of the schedule. */
    ghost function Left(): (n: nat)
      reads this
      requires Valid()
    {
      |stream| - pos
    }

    ghost function Ahead(): (turns: seq<Turn>)
      reads this
      requires Valid()
    {
      script[used..]
    }

    constructor (stream: seq<Byte>, script: seq<Turn>)
      ensures Valid() && fresh(buff) && status == Connecting && pos == 0 && used == 0
      ensures this.stream == stream && this.script == script
    {
      status, pos, used := Connecting, 0, 0;
      this.stream, this.script := stream, script;
      buff := new Byte[BUFFER_SIZE];
    }

    /** `recv`: up to `asked` octets into the buffer at `at`. */
    method Recv(at: nat, asked: nat, io: Io) returns (got: nat)
      requires Valid() && at + asked <= BUFFER_SIZE
      modifies this`pos, buff
      ensures Valid() && got == Got(io, asked, old(Left())) && pos == old(pos) + got
      ensures buff[..at] == old(buff[..at])
      ensures buff[at..at + got] == stream[old(pos)..pos]
      ensures buff[at + got..] == old(buff[at + got..])
    {
      got := Got(io, asked, |stream| - pos);
      forall i | 0 <= i < got {
        buff[at + i] := stream[pos + i];
      }
      pos := pos + got;
    }

    /** One turn of the loop that fills the buffer up to `to`. */
    method OneTurn(at: nat, to: nat, patience: Option<nat>, onBroken: Status) returns (r: Reading, got: nat)
      requires Valid() && at < to <= BUFFER_SIZE && used < |script| && onBroken in {ToBeConnected, Broken}
      modifies this`pos, this`used, this`status, buff
      ensures Valid() && used == old(used) + 1
      ensures buff[..at] == old(buff[..at]) && buff[to..] == old(buff[to..])
      ensures r == Unfinished <==> GoesOn(script[old(used)], to - at, old(Left()), patience)
      ensures r == Unfinished ==>
                && got == Got(script[old(used)].io, to - at, old(Left())) && pos == old(pos) + got
                && buff[at..at + got] == stream[old(pos)..pos]
      ensures r in {Unfinished, Exited, GivenUp}
      ensures status == if r != GivenUp then old(status)
                        else if script[old(used)].broken then onBroken
                        else ToBeConnected
    {
      got := 0;
      r := Unfinished;
      var turn := script[used];
      used := used + 1;
      if turn.exit {
        return Exited, 0;
      }
      if turn.broken {
        status := onBroken;
        return GivenUp, 0;
      }
      if turn.io == Quiet {
        if patience == Some(1) {
          status := ToBeConnected;
          r := GivenUp;
        }
      } else {
        ghost var was := buff[..];
        got := Recv(at, to - at, turn.io);
        Around(was, buff[..], at, at, at + got, to);
        if got == 0 {
          status := ToBeConnected;
          r := GivenUp;
        }
      }
    }

    /** Octets up to `to` are filled from `from` on, turn by turn; `limit` is the number of
        quiet turns at which the reader gives up, if there is one. Both the header loop
        and the body loop have this form: the octets land one behind the other, and the
        filling is complete exactly if the schedule delivers them. */
    method FillUp(from: nat, to: nat, limit: Option<nat>, onBroken: Status) returns (r: Reading)
      requires Valid() && from <= to <= BUFFER_SIZE && onBroken in {ToBeConnected, Broken}
      modifies this`pos, this`used, this`status, buff
      ensures Valid() && used >= old(used)
      ensures buff[..from] == old(buff[..from]) && buff[to..] == old(buff[to..])
      ensures r == Complete <==> Delivers(old(Ahead()), to - from, old(Left()), limit)
      ensures r == Complete ==>
                && used == old(used) + Taken(old(Ahead()), to - from, old(Left()), limit)
                && pos == old(pos) + (to - from) && buff[from..to] == stream[old(pos)..pos]
      ensures r in {Complete, Exited, Unfinished} ==> status == old(status)
      ensures r == GivenUp ==> status in {ToBeConnected, onBroken}
    {
      var at, patience := from, limit;
      ghost var was, start, all, left := buff[..], pos, Ahead(), Left();
      while at < to
        invariant Valid() && from <= at <= to && used >= old(used) && status == old(status)
        invariant pos == start + (at - from) && Filled(was, buff[..], from, at, to, stream, start)
        invariant Continues(all, to - from, left, limit, Ahead(), to - at, Left(), patience, used - old(used))
        decreases |script| - used
      {
        if used == |script| {
          return Unfinished;
        }
        r, at, patience := FillStep(from, at, to, patience, onBroken, was, start, all, left, limit, old(used));
        if r != Unfinished {
          return;
        }
      }
      return Complete;
    }

    /** One turn of the loop, and what it makes of the buffer. */
    method FillStep(from: nat, at: nat, to: nat, patience: Option<nat>, onBroken: Status,
                    ghost was: seq<Byte>, ghost start: nat, ghost all: seq<Turn>, ghost left: nat,
                    ghost limit: Option<nat>, ghost from0: nat)
      returns (r: Reading, at': nat, patience': Option<nat>)
      requires Valid() && at < to <= BUFFER_SIZE && used < |script| && onBroken in {ToBeConnected, Broken}
      requires Filled(was, buff[..], from, at, to, stream, start) && pos == start + (at - from)
      requires Continues(all, to - from, left, limit, Ahead(), to - at, Left(), patience, used - from0)
      modifies this`pos, this`used, this`status, buff
      ensures Valid() && used == old(used) + 1 && at <= at' <= to && r in {Unfinished, Exited, GivenUp}
      ensures pos == start + (at' - from) || r != Unfinished
      ensures Filled(was, buff[..], from, at', to, stream, start)
      ensures r == Unfinished ==>
                Continues(all, to - from, left, limit, Ahead(), to - at', Left(), patience', used - from0)
      ensures r != Unfinished ==> !Delivers(all, to - from, left, limit)
      ensures r != GivenUp ==> status == old(status)
      ensures r == GivenUp ==> status in {ToBeConnected, onBroken}
    {
      ghost var b, turns, there := buff[..], Ahead(), Left();
      var turn := script[used];
      assert turns[0] == turn && turns[1..] == script[used + 1..];
      var got;
      r, got := OneTurn(at, to, patience, onBroken);
      FilledOn(was, b, buff[..], from, at, to, stream, start);
      ContinuesOn(all, to - from, left, limit, turns, to - at, there, patience, used - 1 - from0);
      at', patience' := at, patience;
      if r == Unfinished {
        FilledMore(was, buff[..], from, at, at + got, to, stream, start);
        at', patience' := at + got, Less(patience, turn);
      }
    }

    /** The header: a first `recv`, then the loop. */
    method ReadHeader(first: Io) returns (r: Reading)
      requires Valid() && first != Quiet
      modifies this`pos, this`used, this`status, buff
      ensures Valid() && used >= old(used)
      ensures buff[HEADER_LENGTH..] == old(buff[HEADER_LENGTH..])
      ensures r == Complete <==> HeaderArrives(old(Ahead()), first, old(Left()))
      ensures r == Complete ==>
                && used == old(used) + HeaderTurns(old(Ahead()), first, old(Left()))
                && pos == old(pos) + HEADER_LENGTH && buff[..HEADER_LENGTH] == stream[old(pos)..pos]
      ensures r in {Complete, Exited, Unfinished} ==> status == old(status)
      ensures r == GivenUp ==> status == ToBeConnected
    {
      var got := Recv(0, HEADER_LENGTH, first);
      if got < 1 {
        status := ToBeConnected;
        return GivenUp;
      }
      ghost var start := pos;
      r := FillUp(got, HEADER_LENGTH, Some(HEADER_RETRIES), ToBeConnected);
      if r == Complete {
        Prefixed(buff[..], got, HEADER_LENGTH, stream, old(pos), start);
      }
    }

    /** The wait for the body ends well exactly if its first turn finds the socket ready: the
        set of sockets is not filled in again, and once a turn was quiet the reader no longer
        looks. */
    method Wait() returns (r: Reading, io: Io)
      requires Valid()
      modifies this`used, this`status
      ensures Valid() && used >= old(used)
      ensures r == Complete <==> WaitEnds(old(Ahead()))
      ensures r == Complete ==> io == old(Ahead())[0].io && used == old(used) + 1
      ensures r in {Complete, Exited, Unfinished} ==> status == old(status)
      ensures r == GivenUp ==> status == Broken
    {
      var deaf := false;
      while true
        invariant Valid() && used >= old(used) && status == old(status)
        invariant !deaf ==> used == old(used)
        invariant deaf ==> !WaitEnds(old(Ahead()))
        decreases |script| - used
      {
        if used == |script| {
          return Unfinished, Quiet;
        }
        var turn := script[used];
        used := used + 1;
        if turn.exit {
          return Exited, Quiet;
        }
        if turn.broken {
          status := Broken;
          return GivenUp, Quiet;
        }
        if turn.io != Quiet && !deaf {
          return Complete, turn.io;
        }
        deaf := true;
      }
    }

    /** `read_message_body`, for a body of `body` octets. A first `recv` that fails is not
        noticed: the reader slips back by one octet and reads one too many. */
    method ReadBody(body: nat) returns (r: Reading, slipped: bool)
      requires Valid() && HEADER_LENGTH + body <= BUFFER_SIZE
      modifies this`pos, this`used, this`status, buff
      ensures Valid() && used >= old(used)
      ensures buff[HEADER_LENGTH + body..] == old(buff[HEADER_LENGTH + body..])
      ensures r == Complete <==> BodyArrives(old(Ahead()), body, old(Left()))
      ensures r == Complete ==>
                && used == old(used) + BodyTurns(old(Ahead()), body, old(Left()))
                && slipped == (old(Ahead())[0].io == Failing)
                && pos == old(pos) + body + (if slipped then 1 else 0)
                && var from := if slipped then HEADER_LENGTH - 1 else HEADER_LENGTH;
                   && buff[..from] == old(buff[..from])
                   && buff[from..HEADER_LENGTH + body] == stream[old(pos)..pos]
      ensures r in {Complete, Exited, Unfinished} ==> status == old(status)
      ensures r == GivenUp ==> status in {ToBeConnected, Broken}
    {
      slipped := false;
      var io: Io;
      r, io := Wait();
      if r != Complete {
        return;
      }
      assert old(Ahead())[1..] == Ahead();
      if io == Failing {
        slipped := true;
        r := ReadSlipped(body);
      } else {
        r := ReadPieces(io, body);
      }
    }

    /** The body after a first `recv` that failed. */
    method ReadSlipped(body: nat) returns (r: Reading)
      requires Valid() && HEADER_LENGTH + body <= BUFFER_SIZE
      modifies this`pos, this`used, this`status, buff
      ensures Valid() && used >= old(used)
      ensures buff[HEADER_LENGTH + body..] == old(buff[HEADER_LENGTH + body..])
      ensures r == Complete <==> Delivers(old(Ahead()), body + 1, old(Left()), None)
      ensures r == Complete ==>
                && used == old(used) + Taken(old(Ahead()), body + 1, old(Left()), None)
                && pos == old(pos) + body + 1 && buff[..HEADER_LENGTH - 1] == old(buff[..HEADER_LENGTH - 1])
                && buff[HEADER_LENGTH - 1..HEADER_LENGTH + body] == stream[old(pos)..pos]
      ensures r in {Complete, Exited, Unfinished} ==> status == old(status)
      ensures r == GivenUp ==> status in {ToBeConnected, Broken}
    {
      r := FillUp(HEADER_LENGTH - 1, HEADER_LENGTH + body, None, Broken);
    }

    /** The body after a first `recv` that did not fail. */
    method ReadPieces(io: Io, body: nat) returns (r: Reading)
      requires Valid() && HEADER_LENGTH + body <= BUFFER_SIZE
      modifies this`pos, this`used, this`status, buff
      ensures Valid() && used >= old(used)
      ensures buff[HEADER_LENGTH + body..] == old(buff[HEADER_LENGTH + body..])
      ensures var n := Got(io, body, old(Left()));
              && (r == Complete <==> Delivers(old(Ahead()), body - n, old(Left()) - n, None))
              && (r == Complete ==> used == old(used) + Taken(old(Ahead()), body - n, old(Left()) - n, None))
      ensures r == Complete ==>
                && pos == old(pos) + body && buff[..HEADER_LENGTH] == old(buff[..HEADER_LENGTH])
                && buff[HEADER_LENGTH..HEADER_LENGTH + body] == stream[old(pos)..pos]
      ensures r in {Complete, Exited, Unfinished} ==> status == old(status)
      ensures r == GivenUp ==> status in {ToBeConnected, Broken}
    {
      ghost var was := buff[..];
      var received := Recv(HEADER_LENGTH, body, io);
      ghost var start, between := pos, buff[..];
      Around(was, between, HEADER_LENGTH, HEADER_LENGTH, HEADER_LENGTH + received, HEADER_LENGTH + body);
      r := FillUp(HEADER_LENGTH + received, HEADER_LENGTH + body, None, Broken);
      if r == Complete {
        BodyJoined(between, buff[..], received, body, stream, old(pos), start);
      }
    }

    /** Header and body. For every way the octets may trickle in, the reading is complete
        exactly if a whole message arrives, and then it has taken just that message off the
        stream, so that the next one starts on a header; or, after the failure that goes
        unnoticed, one octet more, and the octets in the buffer are shifted by one. */
    method ReadMessage(first: Io) returns (r: Reading, slipped: bool)
      requires Valid() && first != Quiet
      requires Left() >= HEADER_LENGTH ==> HEADER_LENGTH <= MessageLength(stream[pos..]) <= BUFFER_SIZE
      modifies this`pos, this`used, this`status, buff
      ensures Valid() && used >= old(used)
      ensures r == Complete <==> Arrives(old(Ahead()), first, stream[old(pos)..])
      ensures r == Complete ==>
                && used == old(used) + MessageTurns(old(Ahead()), first, stream[old(pos)..])
                && slipped == Slips(old(Ahead()), first, stream[old(pos)..])
                && var n := MessageLength(stream[old(pos)..]);
                   && pos == old(pos) + n + (if slipped then 1 else 0)
                   && buff[..] == OctetsRead(stream[old(pos)..], slipped) + old(buff[n..])
      ensures r in {Complete, Exited, Unfinished} ==> status == old(status)
      ensures r == GivenUp ==> status in {ToBeConnected, Broken}
    {
      slipped := false;
      ghost var s, was, all, start := stream[pos..], buff[..], Ahead(), pos;
      r := ReadHeader(first);
      if r != Complete {
        return;
      }
      HeaderThenBody(all, first, s, Ahead());
      assert buff[HEADER_LENGTH..] == was[HEADER_LENGTH..];
      r, slipped := ReadRest(start, was);
    }

    /** The rest of the message whose header is in the buffer. */
    method ReadRest(ghost p: nat, ghost was: seq<Byte>) returns (r: Reading, slipped: bool)
      requires Valid() && pos == p + HEADER_LENGTH && buff[..HEADER_LENGTH] == stream[p..pos]
      requires HEADER_LENGTH <= MessageLength(stream[p..]) <= BUFFER_SIZE == |was|
      requires buff[HEADER_LENGTH..] == was[HEADER_LENGTH..]
      modifies this`pos, this`used, this`status, buff
      ensures Valid() && used >= old(used)
      ensures var body := MessageLength(stream[p..]) - HEADER_LENGTH;
              && (r == Complete <==> BodyArrives(old(Ahead()), body, old(Left())))
              && (r == Complete ==>
                    && used == old(used) + BodyTurns(old(Ahead()), body, old(Left()))
                    && slipped == (old(Ahead())[0].io == Failing)
                    && pos == p + HEADER_LENGTH + body + (if slipped then 1 else 0)
                    && buff[..] == OctetsRead(stream[p..], slipped) + was[HEADER_LENGTH + body..])
      ensures r in {Complete, Exited, Unfinished} ==> status == old(status)
      ensures r == GivenUp ==> status in {ToBeConnected, Broken}
    {
      var head := buff[..HEADER_LENGTH];
      HeadLength(stream, p, head);
      var body := MessageLength(head) - HEADER_LENGTH;
      ghost var b := buff[..];
      r, slipped := ReadBody(body);
      if r == Complete {
        Behind(b, was, HEADER_LENGTH, body);
        WholeMessage(buff[..], body, slipped, stream, p, head, was);
      }
    }

    /** The readings of a connection in service, one message after the other. */
    method ReadMessages() returns (messages: seq<seq<Byte>>)
      requires Valid() && Steady(Ahead(), stream[pos..])
      modifies this`pos, this`used, this`status, buff
      ensures Valid()
      ensures messages == Session(old(Ahead()), stream[old(pos)..])
    {
      messages := [];
      ghost var goal := Session(Ahead(), stream[pos..]);
      var goesOn := true;
      while goesOn && used < |script|
        invariant Valid() && (goesOn ==> Steady(Ahead(), stream[pos..]))
        invariant goal == messages + (if goesOn then Session(Ahead(), stream[pos..]) else [])
        decreases goesOn, |script| - used
      {
        var m;
        goesOn, m := ReadTurn();
        var more := if m.Some? then [m.value] else [];
        Regrouped(messages, more, if goesOn then Session(Ahead(), stream[pos..]) else []);
        messages := messages + more;
      }
    }

    /** One turn of the loop of a connection in service. */
    method ReadTurn() returns (goesOn: bool, m: Option<seq<Byte>>)
      requires Valid() && used < |script| && Steady(Ahead(), stream[pos..])
      modifies this`pos, this`used, this`status, buff
      ensures Valid() && used > old(used) && (goesOn ==> Steady(Ahead(), stream[pos..]))
      ensures Session(old(Ahead()), stream[old(pos)..])
              == (if m.Some? then [m.value] else []) + (if goesOn then Session(Ahead(), stream[pos..]) else [])
    {
      var turn := script[used];
      SessionTurn(Ahead(), stream[pos..]);
      ghost var turns := Ahead();
      used := used + 1;
      assert turns[0] == turn && turns[1..] == Ahead();
      if turn.exit {
        return false, None;
      }
      if turn.broken {
        status := Broken;
        return false, None;
      }
      if turn.io == Quiet {
        return true, None;
      }
      m := ReadNext(turn.io);
      goesOn := m.Some?;
    }

    method ReadNext(first: Io) returns (m: Option<seq<Byte>>)
      requires Valid() && first != Quiet
      requires Left() >= HEADER_LENGTH ==> HEADER_LENGTH <= MessageLength(stream[pos..]) <= BUFFER_SIZE
      modifies this`pos, this`used, this`status, buff
      ensures Valid() && used >= old(used)
      ensures var turns, s := old(Ahead()), stream[old(pos)..];
              && m == MessageRead(turns, first, s)
              && (m.Some? ==> Ahead() == TurnsAfter(turns, first, s) && stream[pos..] == StreamAfter(turns, first, s))
    {
      ghost var s := stream[pos..];
      var at := pos;
      var reading, slipped := ReadMessage(first);
      if reading != Complete {
        return None;
      }
      var n := pos - at - (if slipped then 1 else 0);
      assert s[pos - at..] == stream[pos..];
      m := Some(buff[..n]);
    }

    /** The length field of the message that should be the answer to the CER is that of a
        message that fits the buffer. */
    ghost predicate ReadableNext()
      reads this
      requires Valid()
    {
      Left() >= HEADER_LENGTH ==> HEADER_LENGTH <= MessageLength(stream[pos..]) <= BUFFER_SIZE
    }

    /** The check of the octets in the buffer. */
    method CheckCea(length: nat) returns (value: bool)
      requires Valid() && status == Connecting && HEADER_LENGTH <= length <= BUFFER_SIZE
      requires CommandCode(buff[..length]) == CMD_CER ==> CeaSearchable(buff[..], length, HEADER_LENGTH)
      modifies this`status
      ensures Valid() && value == (status == Connecting)
      ensures status == if value then Connecting
                        else if CommandCode(buff[..length]) == CMD_CER then ConfigurationError
                        else ToBeConnected
      ensures value <==> CommandCode(buff[..length]) == CMD_CER
                         && ResultWord(buff[..], length, HEADER_LENGTH) == Some(DIAMETER_SUCCESS)
    {
      if CommandCode(buff[..length]) == CMD_CER {
        value := WalkCea(buff[..], length);
        if !value {
          status := ConfigurationError;
        }
      } else {
        status := ToBeConnected;
        value := false;
      }
    }

    /** `receive_CEA`. Whenever it returns, its result and the status say the same; so the
        caller may look at the status only. It says yes exactly if a message arrives, after no
        or one quiet turn, and its octets are a CEA whose first Result-Code is 2001. After two
        quiet turns it gives up, whatever follows. */
    method ReceiveCea() returns (r: Admission)
      requires Valid() && status == Connecting && ReadableNext()
      modifies this`pos, this`used, this`status, buff
      ensures Valid()
      ensures r == Returned(true) <==>
                exists n :: ArrivesAfter(old(Ahead()), stream[old(pos)..], n)
                            && Opens(Some(ReadAfter(old(Ahead()), stream[old(pos)..], n)))
      ensures r == Undefined <==>
                exists n :: ArrivesAfter(old(Ahead()), stream[old(pos)..], n)
                            && Misleads(Some(ReadAfter(old(Ahead()), stream[old(pos)..], n)))
      ensures TwoQuiet(old(Ahead())) ==> r == Returned(false) && status == ToBeConnected
      ensures forall n :: ArrivesAfter(old(Ahead()), stream[old(pos)..], n) && r == Returned(false) ==>
                status == if CommandCode(ReadAfter(old(Ahead()), stream[old(pos)..], n)) == CMD_CER
                          then ConfigurationError else ToBeConnected
      ensures r.Returned? ==> r.value == (status == Connecting)
      ensures status != Connected && (!r.Returned? ==> status == Connecting)
    {
      CeaReadExactly(Ahead(), stream[pos..]);
      r := WaitForCea();
    }

    /** The loop. */
    method WaitForCea() returns (r: Admission)
      requires Valid() && status == Connecting && ReadableNext()
      modifies this`pos, this`used, this`status, buff
      ensures Valid()
      ensures var m := CeaRead(old(Ahead()), stream[old(pos)..], 0);
              && (r == Returned(true) <==> Opens(m)) && (r == Undefined <==> Misleads(m))
              && (m.Some? && r == Returned(false) ==>
                    |m.value| >= HEADER_LENGTH
                    && status == if CommandCode(m.value) == CMD_CER then ConfigurationError else ToBeConnected)
      ensures TwoQuiet(old(Ahead())) ==> r == Returned(false) && status == ToBeConnected
      ensures r.Returned? ==> r.value == (status == Connecting)
      ensures status != Connected && (!r.Returned? ==> status == Connecting)
    {
      var retries := 0;
      ghost var goal := CeaRead(Ahead(), stream[pos..], 0);
      while true
        invariant Valid() && status == Connecting && pos == old(pos) && retries < CEA_RETRIES
        invariant CeaRead(Ahead(), stream[pos..], retries) == goal
        invariant used == old(used) + retries
        decreases |script| - used
      {
        if used == |script| {
          return Pending;
        }
        var turn := script[used];
        ghost var turns := Ahead();
        used := used + 1;
        assert turns[0] == turn && turns[1..] == Ahead();
        if turn.exit {
          return Stopped;
        }
        if turn.broken {
          status := ToBeConnected;
          return Returned(false);
        }
        if turn.io == Quiet {
          retries := retries + 1;
          if retries == CEA_RETRIES {
            status := ToBeConnected;
            return Returned(false);
          }
        } else {
          r := ReadAndCheck(turn.io);
          return;
        }
      }
    }

    method ReadAndCheck(first: Io) returns (r: Admission)
      requires Valid() && status == Connecting && ReadableNext() && first != Quiet
      modifies this`pos, this`used, this`status, buff
      ensures Valid()
      ensures r == Returned(true) <==> Opens(MessageRead(old(Ahead()), first, stream[old(pos)..]))
      ensures r == Undefined <==> Misleads(MessageRead(old(Ahead()), first, stream[old(pos)..]))
      ensures var m := MessageRead(old(Ahead()), first, stream[old(pos)..]);
              m.Some? && r == Returned(false) ==>
                status == if CommandCode(m.value) == CMD_CER then ConfigurationError else ToBeConnected
      ensures r.Returned? ==> r.value == (status == Connecting)
      ensures status != Connected && (!r.Returned? ==> status == Connecting)
    {
      var reading, length := ReadCleared(first);
      match reading {
        case GivenUp => r := Returned(false);
        case Exited => r := Stopped;
        case Unfinished => r := Pending;
        case Complete =>
          if CommandCode(buff[..length]) != CMD_CER || CeaSearchable(buff[..], length, HEADER_LENGTH) {
            var value := CheckCea(length);
            r := Returned(value);
          } else {
            r := Undefined;
          }
      }
    }

    /** A message is read into a buffer of zeros. */
    method ReadCleared(first: Io) returns (r: Reading, length: nat)
      requires Valid() && ReadableNext() && first != Quiet
      modifies this`pos, this`used, this`status, buff
      ensures Valid()
      ensures var m := MessageRead(old(Ahead()), first, stream[old(pos)..]);
              && (r == Complete <==> m.Some?)
              && (r == Complete ==>
                    && HEADER_LENGTH <= length == |m.value| <= BUFFER_SIZE
                    && buff[..length] == m.value && buff[..] == m.value + Zeros(BUFFER_SIZE - length))
      ensures r in {Complete, Exited, Unfinished} ==> status == old(status)
      ensures r == GivenUp ==> status in {ToBeConnected, Broken}
    {
      length := 0;
      forall i | 0 <= i < BUFFER_SIZE {
        buff[i] := 0;
      }
      assert buff[..] == Zeros(BUFFER_SIZE);
      var start := pos;
      var slipped;
      r, slipped := ReadMessage(first);
      if r == Complete {
        length := pos - start - (if slipped then 1 else 0);
        assert buff[..] == OctetsRead(stream[start..], slipped) + Zeros(BUFFER_SIZE - length);
      }
    }

    /** The end of the CONNECTING state, once the CER has been sent: the connection becomes
        CONNECTED exactly if a whole message arrives on its socket in time and what is read of
        it is a successful CEA. */
    method Admit() returns (r: Admission)
      requires Valid() && status == Connecting && ReadableNext()
      modifies this`pos, this`used, this`status, buff
      ensures Valid()
      ensures status == Connected <==>
                exists n :: ArrivesAfter(old(Ahead()), stream[old(pos)..], n)
                            && Opens(Some(ReadAfter(old(Ahead()), stream[old(pos)..], n)))
      ensures TwoQuiet(old(Ahead())) ==> status == ToBeConnected
    {
      r := ReceiveCea();
      if r.Returned? && status == Connecting {
        status := Connected;
      }
    }
  }

  /** What `receive_CEA` comes to: it returned, the thread exited, it is still waiting, or
      its walk over the answer meets an AVP of length zero or leaves the buffer. */
  datatype Admission = Returned(value: bool) | Stopped | Pending | Undefined

  /** The octets that come to be checked, if any: a quiet turn may come first, but not two, and
      then a whole message has to arrive. */
  function CeaRead(turns: seq<Turn>, s: seq<Byte>, retries: nat): (m: Option<seq<Byte>>)
    decreases |turns|
  {
    if turns == [] || !Alive(turns[0]) then None
    else if turns[0].io == Quiet
    then if retries + 1 < CEA_RETRIES then CeaRead(turns[1..], s, retries + 1) else None
    else MessageRead(turns[1..], turns[0].io, s)
  }

  predicate IsQuiet(turn: Turn)
  {
    Alive(turn) && turn.io == Quiet
  }

  /** The server says nothing for two turns. */
  predicate TwoQuiet(turns: seq<Turn>)
  {
    |turns| >= 2 && IsQuiet(turns[0]) && IsQuiet(turns[1])
  }

  /** A whole message arrives from the turn number `n` on, which is the first or the second; a
      turn before it is quiet. */
  predicate ArrivesAfter(turns: seq<Turn>, s: seq<Byte>, n: nat)
  {
    && n < 2 && n < |turns| && (forall i :: 0 <= i < n ==> IsQuiet(turns[i]))
    && Alive(turns[n]) && turns[n].io != Quiet && Arrives(turns[n + 1..], turns[n].io, s)
  }

  /** What is read of it. */
  function ReadAfter(turns: seq<Turn>, s: seq<Byte>, n: nat): (m: seq<Byte>)
    requires ArrivesAfter(turns, s, n)
    ensures |s| >= HEADER_LENGTH && HEADER_LENGTH <= |m| == MessageLength(s)
  {
    MessageRead(turns[n + 1..], turns[n].io, s).value
  }

  /** The recursive account comes to that, and to nothing after two quiet turns. */
  lemma CeaReadExactly(turns: seq<Turn>, s: seq<Byte>)
    ensures CeaRead(turns, s, 0).Some? <==> exists n :: ArrivesAfter(turns, s, n)
    ensures forall n :: ArrivesAfter(turns, s, n) ==> CeaRead(turns, s, 0) == Some(ReadAfter(turns, s, n))
    ensures TwoQuiet(turns) ==> CeaRead(turns, s, 0) == None && !exists n :: ArrivesAfter(turns, s, n)
  {
    if turns != [] && Alive(turns[0]) {
      if turns[0].io != Quiet {
        assert ArrivesAfter(turns, s, 0) <==> Arrives(turns[1..], turns[0].io, s);
      } else if |turns| > 1 {
        var rest := turns[1..];
        assert rest[1..] == turns[2..];
        assert ArrivesAfter(turns, s, 1)
               <==> Alive(rest[0]) && rest[0].io != Quiet && Arrives(turns[2..], rest[0].io, s);
      }
    }
  }

  /** These octets open the connection. */
  predicate Opens(m: Option<seq<Byte>>)
  {
    m.Some? && HEADER_LENGTH <= |m.value| <= BUFFER_SIZE && Walkable(m.value) && IsSuccessfulCea(m.value)
  }

  /** The walk over these octets is not defined. */
  predicate Misleads(m: Option<seq<Byte>>)
  {
    m.Some? && HEADER_LENGTH <= |m.value| <= BUFFER_SIZE && !Walkable(m.value)
  }

  /** In time means: at most one quiet turn before the message. If it trickles in undisturbed
      then, its octets decide. */
  lemma CeaInTime(c: Course, more: seq<Turn>, m: seq<Byte>, later: seq<Byte>)
    requires HEADER_LENGTH <= |m| == MessageLength(m) && Undisturbed(c, |m|) && |c.idle| < CEA_RETRIES
    ensures CeaRead(c.idle + ([c.first] + (c.header + ([c.wait] + (c.body + more)))), m + later, 0) == Some(m)
  {
    var turns, s := c.header + ([c.wait] + (c.body + more)), m + later;
    assert s[..|m|] == m;
    SameLength(s, m);
    CourseArrives(c, more, s);
    IdleBeforeCea(c.idle, [c.first] + turns, s);
    ReadAtOnce(c.first, turns, s, |c.idle|);
  }

  lemma IdleBeforeCea(idle: seq<Turn>, more: seq<Turn>, s: seq<Byte>)
    requires |idle| < CEA_RETRIES && forall i :: 0 <= i < |idle| ==> Alive(idle[i]) && idle[i].io == Quiet
    ensures CeaRead(idle + more, s, 0) == CeaRead(more, s, |idle|)
  {
    if |idle| == 1 {
      assert (idle + more)[1..] == more;
    } else {
      assert idle + more == more;
    }
  }

  lemma ReadAtOnce(first: Turn, turns: seq<Turn>, s: seq<Byte>, retries: nat)
    requires Alive(first) && first.io != Quiet
    ensures CeaRead([first] + turns, s, retries) == MessageRead(turns, first.io, s)
  {
    assert ([first] + turns)[1..] == turns;
  }

  /** The check of these octets is defined; those behind them count as zero. */
  predicate Walkable(m: seq<Byte>)
    requires HEADER_LENGTH <= |m| <= BUFFER_SIZE
  {
    CommandCode(m) == CMD_CER ==> CeaSearchable(m + Zeros(BUFFER_SIZE - |m|), |m|, HEADER_LENGTH)
  }

  /** Octets that open a connection. */
  predicate IsSuccessfulCea(m: seq<Byte>)
    requires HEADER_LENGTH <= |m| <= BUFFER_SIZE && Walkable(m)
  {
    CommandCode(m) == CMD_CER
    && ResultWord(m + Zeros(BUFFER_SIZE - |m|), |m|, HEADER_LENGTH) == Some(DIAMETER_SUCCESS)
  }

  /** That is, in a well-formed message: the command code is 257 and the first Result-Code AVP
      holds 2001. Without a Result-Code there is no success; one of fewer than four octets is
      completed by what follows it, the last one by zeros, as far as the buffer has them. */
  lemma SuccessfulCea(m: seq<Byte>)
    requires HEADER_LENGTH <= |m| <= BUFFER_SIZE && WellFormed(m, HEADER_LENGTH)
    ensures var code, buff := Lookup(m, RESULTCODE_CODE), m + Zeros(BUFFER_SIZE - |m|);
            && (code == None ==> Walkable(m) && !IsSuccessfulCea(m))
            && (code.Some? && |code.value| >= 4 ==>
                  && Walkable(m)
                  && (IsSuccessfulCea(m) <==>
                        CommandCode(m) == CMD_CER && ReadBig4(code.value, 0) == DIAMETER_SUCCESS))
            && (code.Some? && |m| + 4 <= BUFFER_SIZE ==>
                  && Walkable(m)
                  && exists at: nat, w: Word :: WordFrom(buff, |m|, at, code.value, w)
                       && (IsSuccessfulCea(m) <==> CommandCode(m) == CMD_CER && w == DIAMETER_SUCCESS))
  {
    var buff := m + Zeros(BUFFER_SIZE - |m|);
    var code := Lookup(m, RESULTCODE_CODE);
    assert buff[..|m|] == m;
    if |m| + 4 <= BUFFER_SIZE || code == None || |code.value| >= 4 {
      SuccessIsLookup(buff, |m|, HEADER_LENGTH);
      ResultWordIs(buff, |m|, HEADER_LENGTH);
    }
  }

  /** What lies around the octets written is as it was. */
  lemma Around(a: seq<Byte>, b: seq<Byte>, from: nat, at: nat, end: nat, to: nat)
    requires from <= at <= end <= to <= |a| == |b| && b[..at] == a[..at] && b[end..] == a[end..]
    ensures b[..from] == a[..from] && b[from..at] == a[from..at] && b[to..] == a[to..]
  {
    assert b[..from] == b[..at][..from] && a[..from] == a[..at][..from];
    assert b[from..at] == b[..at][from..] && a[from..at] == a[..at][from..];
    assert b[to..] == b[end..][to - end..] && a[to..] == a[end..][to - end..];
  }

  /** The buffer holds the octets of the stream from `start` on between `from` and `at`, and is
      as it was before `from` and behind `to`. */
  ghost predicate Filled(was: seq<Byte>, now: seq<Byte>, from: nat, at: nat, to: nat, stream: seq<Byte>, start: nat)
  {
    && from <= at <= to <= |was| == |now| && start + (at - from) <= |stream|
    && now[..from] == was[..from] && now[to..] == was[to..]
    && now[from..at] == stream[start..start + (at - from)]
  }

  /** A turn that writes between `at` and `to` leaves what is filled. */
  lemma FilledOn(was: seq<Byte>, a: seq<Byte>, b: seq<Byte>, from: nat, at: nat, to: nat, stream: seq<Byte>, start: nat)
    requires Filled(was, a, from, at, to, stream, start)
    requires |b| == |a| && b[..at] == a[..at] && b[to..] == a[to..]
    ensures Filled(was, b, from, at, to, stream, start)
  {
    assert b[..from] == b[..at][..from] && a[..from] == a[..at][..from];
    assert b[from..at] == b[..at][from..] && a[from..at] == a[..at][from..];
  }

  lemma FilledMore(was: seq<Byte>, b: seq<Byte>, from: nat, at: nat, end: nat, to: nat, stream: seq<Byte>, start: nat)
    requires Filled(was, b, from, at, to, stream, start) && at <= end <= to
    requires start + (end - from) <= |stream|
    requires b[at..end] == stream[start + (at - from)..start + (end - from)]
    ensures Filled(was, b, from, end, to, stream, start)
  {
    Joined(b, from, at, end, b[from..at], stream, start, start + (at - from));
  }

  /** Whether the turns deliver is decided by those still to come, `used` turns later. */
  ghost predicate Continues(all: seq<Turn>, need0: nat, left0: nat, limit: Option<nat>,
                            turns: seq<Turn>, need: nat, left: nat, patience: Option<nat>, used: int)
  {
    && (Delivers(all, need0, left0, limit) <==> Delivers(turns, need, left, patience))
    && (Delivers(turns, need, left, patience) ==>
          Taken(all, need0, left0, limit) == used + Taken(turns, need, left, patience))
  }

  lemma ContinuesOn(all: seq<Turn>, need0: nat, left0: nat, limit: Option<nat>,
                    turns: seq<Turn>, need: nat, left: nat, patience: Option<nat>, used: int)
    requires Continues(all, need0, left0, limit, turns, need, left, patience, used) && need > 0 && turns != []
    ensures !GoesOn(turns[0], need, left, patience) ==> !Delivers(all, need0, left0, limit)
    ensures GoesOn(turns[0], need, left, patience) ==>
              var n := Got(turns[0].io, need, left);
              Continues(all, need0, left0, limit, turns[1..], need - n, left - n, Less(patience, turns[0]), used + 1)
  {
  }

  lemma HeadLength(stream: seq<Byte>, p: nat, head: seq<Byte>)
    requires p + HEADER_LENGTH <= |stream| && head == stream[p..p + HEADER_LENGTH]
    ensures MessageLength(head) == MessageLength(stream[p..])
  {
    var s := stream[p..];
    assert head == s[..HEADER_LENGTH];
    assert head[1..1 + 3] == s[1..1 + 3];
    SameOctets(head, 1, s, 1, 3);
  }

  lemma Prefixed(b: seq<Byte>, got: nat, n: nat, stream: seq<Byte>, p: nat, q: nat)
    requires got <= n <= |b| && p + got == q && q + (n - got) <= |stream|
    requires b[..got] == stream[p..q] && b[got..n] == stream[q..q + (n - got)]
    ensures b[..n] == stream[p..q + (n - got)]
  {
    assert b[0..got] == b[..got] && b[0..n] == b[..n];
    Joined(b, 0, got, n, stream[p..q], stream, p, q);
  }

  lemma BodyJoined(a: seq<Byte>, b: seq<Byte>, got: nat, body: nat, stream: seq<Byte>, p: nat, q: nat)
    requires got <= body && HEADER_LENGTH + body <= |a| == |b| && p + got == q && p + body <= |stream|
    requires b[..HEADER_LENGTH + got] == a[..HEADER_LENGTH + got]
    requires a[HEADER_LENGTH..HEADER_LENGTH + got] == stream[p..q]
    requires b[HEADER_LENGTH + got..HEADER_LENGTH + body] == stream[q..p + body]
    ensures b[HEADER_LENGTH..HEADER_LENGTH + body] == stream[p..p + body]
    ensures b[..HEADER_LENGTH] == a[..HEADER_LENGTH]
  {
    var h := HEADER_LENGTH;
    assert b[..h] == b[..h + got][..h] && a[..h] == a[..h + got][..h];
    assert b[h..h + got] == b[..h + got][h..] == a[..h + got][h..] == a[h..h + got];
    Joined(b, h, h + got, h + body, stream[p..q], stream, p, q);
  }

  lemma Behind(a: seq<Byte>, b: seq<Byte>, n: nat, k: nat)
    requires |a| == |b| && n + k <= |a| && a[n..] == b[n..]
    ensures a[n + k..] == b[n + k..]
  {
    assert a[n + k..] == a[n..][k..] && b[n + k..] == b[n..][k..];
  }

  lemma WholeMessage(b: seq<Byte>, body: nat, slipped: bool, stream: seq<Byte>, p: nat,
                     head: seq<Byte>, was: seq<Byte>)
    requires HEADER_LENGTH + body <= |b| == |was| && p + HEADER_LENGTH + body + (if slipped then 1 else 0) <= |stream|
    requires head == stream[p..p + HEADER_LENGTH] && MessageLength(stream[p..]) == HEADER_LENGTH + body
    requires var from, n := if slipped then HEADER_LENGTH - 1 else HEADER_LENGTH, HEADER_LENGTH + body;
             && b[..from] == head[..from] && b[n..] == was[n..]
             && b[from..n] == stream[p + HEADER_LENGTH..p + n + (if slipped then 1 else 0)]
    ensures b == OctetsRead(stream[p..], slipped) + was[HEADER_LENGTH + body..]
  {
    var from, n := if slipped then HEADER_LENGTH - 1 else HEADER_LENGTH, HEADER_LENGTH + body;
    var s := stream[p..];
    assert b == b[..from] + b[from..n] + b[n..];
    assert head[..from] == s[..from];
    if slipped {
      assert b[from..n] == s[HEADER_LENGTH..n + 1];
    } else {
      assert b[from..n] == s[HEADER_LENGTH..n] && s[..n] == s[..HEADER_LENGTH] + s[HEADER_LENGTH..n];
    }
  }

  lemma Regrouped(a: seq<seq<Byte>>, b: seq<seq<Byte>>, c: seq<seq<Byte>>)
    ensures a + (b + c) == (a + b) + c
  {
  }

  lemma Joined(b: seq<Byte>, from: nat, at: nat, end: nat, before: seq<Byte>, stream: seq<Byte>, p: nat, q: nat)
    requires from <= at <= end <= |b| && p <= q && q + (end - at) <= |stream| && q - p == at - from
    requires b[from..at] == before == stream[p..q] && b[at..end] == stream[q..q + (end - at)]
    ensures b[from..end] == stream[p..q + (end - at)]
  {
    assert b[from..end] == b[from..at] + b[at..end];
    assert stream[p..q + (end - at)] == stream[p..q] + stream[q..q + (end - at)];
  }
}
