/** Reassembly of Diameter messages from the byte stream of a TTCN client
    (`_ClientThread`, DiaProxy/source/ClientThread.cpp). */
module Framing {
  import opened Octets
  import opened Codec

  // ------------------------------------------------- the whole stream at once

  datatype Parsed = Parsed(messages: seq<seq<Byte>>, rest: seq<Byte>)

  /** The reference: cut whole messages off the front until what is left is not one. */
  function Parse(s: seq<Byte>): (p: Parsed)
    decreases |s|
  {
    if |s| < 4 || MessageLength(s) < HEADER_LENGTH || MessageLength(s) > |s| then Parsed([], s)
    else
      var n := MessageLength(s);
      var p := Parse(s[n..]);
      Parsed([s[..n]] + p.messages, p.rest)
  }

  /** Every length field met while parsing is that of a message that fits the buffer. */
  predicate Framed(s: seq<Byte>)
    decreases |s|
  {
    |s| >= 4 ==>
      && HEADER_LENGTH <= MessageLength(s) <= BUFFER_SIZE
      && (MessageLength(s) <= |s| ==> Framed(s[MessageLength(s)..]))
  }

  /** Nothing is lost or reordered: the messages and the rest make up the stream. */
  lemma {:induction false} ParseCovers(s: seq<Byte>)
    ensures Concat(Parse(s).messages) + Parse(s).rest == s
    decreases |s|
  {
    if !(|s| < 4 || MessageLength(s) < HEADER_LENGTH || MessageLength(s) > |s|) {
      var n := MessageLength(s);
      var m, t := s[..n], s[n..];
      ParseCovers(t);
      var later, rest := Concat(Parse(t).messages), Parse(t).rest;
      ConcatCons(m, Parse(t).messages, rest);
      assert later + rest == t;
      assert m + t == s;
    } else {
      assert Concat([]) + s == s;
    }
  }

  lemma ConcatCons(m: seq<Byte>, ms: seq<seq<Byte>>, rest: seq<Byte>)
    ensures Concat([m] + ms) + rest == m + (Concat(ms) + rest)
  {
    assert ([m] + ms)[1..] == ms;
  }

  /** Messages with truthful length fields come out as they went in, followed by the
      start of a message that is not complete yet. */
  lemma {:induction false} ParseConcat(messages: seq<seq<Byte>>, start: seq<Byte>)
    requires forall i :: 0 <= i < |messages| ==>
               HEADER_LENGTH <= |messages[i]| <= BUFFER_SIZE && MessageLength(messages[i]) == |messages[i]|
    requires |start| >= 4 ==> |start| < MessageLength(start) <= BUFFER_SIZE && HEADER_LENGTH <= MessageLength(start)
    ensures Parse(Concat(messages) + start) == Parsed(messages, start)
    ensures Framed(Concat(messages) + start)
    decreases |messages|
  {
    var s := Concat(messages) + start;
    if messages == [] {
      assert s == start;
    } else {
      var m, later := messages[0], Concat(messages[1..]);
      var more := later + start;
      assert s == (m + later) + start == m + more;
      ParseCons(m, more);
      ParseConcat(messages[1..], start);
      assert messages == [m] + messages[1..];
    }
  }

  lemma ParseCons(m: seq<Byte>, more: seq<Byte>)
    requires HEADER_LENGTH <= |m| <= BUFFER_SIZE && MessageLength(m) == |m|
    ensures Parse(m + more) == Parsed([m] + Parse(more).messages, Parse(more).rest)
    ensures Framed(more) ==> Framed(m + more)
  {
    var s := m + more;
    assert s[..|m|] == m && s[|m|..] == more;
    SameLength(s, m);
  }

  lemma SameLength(s: seq<Byte>, m: seq<Byte>)
    requires 4 <= |m| <= |s| && s[..|m|] == m
    ensures MessageLength(s) == MessageLength(m)
  {
    assert m[1..1 + 3] == s[1..1 + 3];
    SameOctets(m, 1, s, 1, 3);
  }

  /** The law behind reassembly: parsing a stream in two parts, carrying over what the
      first left, is parsing it whole. It holds for every stream and every split. */
  lemma {:induction false} ParseSplit(a: seq<Byte>, b: seq<Byte>)
    ensures Parse(a + b).messages == Parse(a).messages + Parse(Parse(a).rest + b).messages
    ensures Parse(a + b).rest == Parse(Parse(a).rest + b).rest
    decreases |a|
  {
    if |a| < 4 || MessageLength(a) > |a| || MessageLength(a) < HEADER_LENGTH {
    } else {
      var n, s := MessageLength(a), a + b;
      SameLength(s, a);
      assert s[..n] == a[..n] && s[n..] == a[n..] + b;
      ParseSplit(a[n..], b);
    }
  }

  /** Every part of a framed stream, and what reassembly makes of it, is framed. */
  lemma {:induction false} FramedSplit(a: seq<Byte>, b: seq<Byte>)
    requires Framed(a + b)
    ensures Framed(a) && Framed(Parse(a).rest + b)
    decreases |a|
  {
    if |a| >= 4 {
      var n := MessageLength(a);
      SameLength(a + b, a);
      if n <= |a| {
        assert (a + b)[n..] == a[n..] + b;
        FramedSplit(a[n..], b);
      }
    }
  }

  /** What a sequence of reads dispatches, each starting from the carry-over before. */
  function ReadAll(carry: seq<Byte>, chunks: seq<seq<Byte>>): (p: Parsed)
    decreases |chunks|
  {
    if chunks == [] then Parsed([], carry)
    else
      var first := Parse(carry + chunks[0]);
      var more := ReadAll(first.rest, chunks[1..]);
      Parsed(first.messages + more.messages, more.rest)
  }

  /** Reassembly does not depend on how the stream was cut into reads. */
  lemma {:induction false} ChunkingIrrelevant(carry: seq<Byte>, chunks: seq<seq<Byte>>)
    requires Parse(carry) == Parsed([], carry)
    ensures ReadAll(carry, chunks) == Parse(carry + Concat(chunks))
    decreases |chunks|
  {
    if chunks == [] {
      assert carry + Concat(chunks) == carry;
    } else {
      var a, b := carry + chunks[0], Concat(chunks[1..]);
      assert carry + Concat(chunks) == a + b;
      ParseSplit(a, b);
      RestIsStuck(a);
      ChunkingIrrelevant(Parse(a).rest, chunks[1..]);
    }
  }

  lemma {:induction false} RestIsStuck(s: seq<Byte>)
    ensures Parse(Parse(s).rest) == Parsed([], Parse(s).rest)
    decreases |s|
  {
    if !(|s| < 4 || MessageLength(s) < HEADER_LENGTH || MessageLength(s) > |s|) {
      RestIsStuck(s[MessageLength(s)..]);
    }
  }

  // ----------------------------------------------------------- one read

  /** The length the loop computes at the start of `rest`: three octets are read
      whether they have arrived or not; `after` is what the buffer holds behind. */
  function LengthSeen(rest: seq<Byte>, after: seq<Byte>): (n: nat)
    requires |rest| + |after| >= 4
  {
    ReadBig3((rest + after)[..4], 1)
  }

  /** The rest of a read is recognised as incomplete. Four octets or more always are;
      fewer are, exactly when the length seen exceeds them. */
  predicate RestRecognised(rest: seq<Byte>, after: seq<Byte>)
  {
    |rest| in {1, 2, 3} ==> |rest| + |after| >= 4 && LengthSeen(rest, after) > |rest|
  }

  /** In a buffer cleared before the read, one octet is never recognised, two are when
      the message is longer than 65535 octets, three when it is longer than 255. */
  lemma RestInClearedBuffer(rest: seq<Byte>, after: seq<Byte>)
    requires |rest| in {1, 2, 3} && |after| >= 3 && after[..3] == [0, 0, 0]
    ensures RestRecognised(rest, after) <==>
              (|rest| >= 2 && rest[1] != 0) || (|rest| == 3 && rest[2] != 0)
  {
    var h := (rest + after)[..4];
    assert forall i :: |rest| <= i < 4 ==> h[i] == after[..3][i - |rest|];
  }

  class ClientConnection {
    const clientBuff: array<Byte>
    var received: nat               // octets carried over in clientBuff

    ghost predicate Valid()
      reads this, clientBuff
    {
      clientBuff.Length == BUFFER_SIZE && received <= BUFFER_SIZE
    }

    ghost function Carry(): (s: seq<Byte>)
      reads this, clientBuff
      requires Valid()
    {
      clientBuff[..received]
    }

    constructor ()
      ensures Valid() && fresh(clientBuff) && Carry() == []
    {
      clientBuff := new Byte[BUFFER_SIZE];
      received := 0;
    }
  }

  /** The two identifiers of a message are overwritten in place, with values chosen by the
      handling of the message. */
  method Rewrite(temp: array<Byte>, at: nat, length: nat, hop: Word, end: Word)
    requires HEADER_LENGTH <= length && at + length <= temp.Length
    modifies temp
    ensures temp[..at] == old(temp[..at])
    ensures temp[at..at + length] == WithIds(old(temp[at..at + length]), hop, end)
    ensures temp[at + length..] == old(temp[at + length..])
  {
    var h, e := Little4(hop), Little4(end);
    forall i | 0 <= i < 4 {
      temp[at + 12 + i] := h[i];
    }
    forall i | 0 <= i < 4 {
      temp[at + 16 + i] := e[i];
    }
  }

  /** A CER becomes the CEA sent back: its request bit is cleared in place. */
  method Answer(temp: array<Byte>, at: nat, length: nat)
    requires HEADER_LENGTH <= length && at + length <= temp.Length
    modifies temp
    ensures temp[..] == old(temp[..])[at + 4 := old(temp[at + 4]) % 128]
  {
    temp[at + 4] := temp[at + 4] % 128;
  }

  /** What the loop finds at its head: either the rest of the stream, recognised as
      incomplete, or a whole message whose length it has computed correctly. */
  lemma LoopHead(t: seq<Byte>, after: seq<Byte>)
    requires |t| > 0 && Framed(t) && RestRecognised(Parse(t).rest, after)
    ensures |t| + |after| >= 4
    ensures LengthSeen(t, after) > |t| ==> Parse(t) == Parsed([], t)
    ensures LengthSeen(t, after) <= |t| ==>
              && HEADER_LENGTH <= LengthSeen(t, after) == MessageLength(t)
              && Framed(t[MessageLength(t)..])
              && Parse(t).messages == [t[..MessageLength(t)]] + Parse(t[MessageLength(t)..]).messages
              && Parse(t).rest == Parse(t[MessageLength(t)..]).rest
  {
    if |t| >= 4 {
      LengthArrived(t, after);
    } else {
      assert Parse(t).rest == t;
    }
  }

  lemma LengthArrived(t: seq<Byte>, after: seq<Byte>)
    requires |t| >= 4
    ensures LengthSeen(t, after) == MessageLength(t)
  {
    var h := (t + after)[..4];
    assert h[1..1 + 3] == t[1..1 + 3];
    SameOctets(h, 1, t, 1, 3);
  }

  /** The buffer before the loop: the carry-over, the new octets, and behind them zeros
      or, when there was a carry-over, whatever was there. */
  method Receive(client: ClientConnection, temp: array<Byte>, chunk: seq<Byte>)
    requires client.Valid() && temp != client.clientBuff && temp.Length == BUFFER_SIZE
    requires |chunk| <= BUFFER_SIZE - client.received
    modifies temp
    ensures var total := client.received + |chunk|;
            && temp[..total] == client.Carry() + chunk
            && temp[total..] == if client.received == 0 then Zeros(BUFFER_SIZE - total) else old(temp[total..])
  {
    if client.received == 0 {
      forall i | 0 <= i < BUFFER_SIZE {
        temp[i] := 0;
      }
    } else {
      forall i | 0 <= i < client.received {
        temp[i] := client.clientBuff[i];
      }
    }
    forall i | 0 <= i < |chunk| {
      temp[client.received + i] := chunk[i];
    }
  }

  /** The loop works on the octets from `p` on: those of `t`, which have arrived, and
      `after`, which the buffer happens to hold behind them. */
  method Peek(temp: array<Byte>, p: nat, ghost t: seq<Byte>, ghost after: seq<Byte>) returns (length: nat)
    requires p <= temp.Length && temp[p..] == t + after && |t| + |after| >= 4
    ensures length == LengthSeen(t, after)
  {
    assert temp[p..p + 4] == temp[p..][..4];
    length := ReadBig3(temp[p..p + 4], 1);
  }

  /** The message is handed on; unless it is dropped, its octets in the buffer are rewritten. */
  method Handle(temp: array<Byte>, p: nat, length: nat, ghost t: seq<Byte>, ghost after: seq<Byte>)
    returns (message: seq<Byte>)
    requires p <= temp.Length && temp[p..] == t + after && HEADER_LENGTH <= length <= |t|
    modifies temp
    ensures message == t[..length]
    ensures p + length <= temp.Length && temp[p + length..] == t[length..] + after
  {
    message := temp[p..p + length];
    assert message == temp[p..][..length];
    assert temp[p + length..] == temp[p..][length..];
    var dropped: bool := *;
    if dropped {
      return;
    }
    if CommandCode(message) == CMD_CER {
      Answer(temp, p, length);
      assert temp[p + length..] == old(temp[..])[p + length..];
    } else {
      var hop: Word := *;
      var end: Word := *;
      Rewrite(temp, p, length, hop, end);
    }
  }

  method Save(client: ClientConnection, temp: array<Byte>, p: nat, left: nat,
              ghost t: seq<Byte>, ghost after: seq<Byte>)
    requires client.Valid() && temp != client.clientBuff
    requires p <= temp.Length == BUFFER_SIZE && temp[p..] == t + after && left == |t|
    modifies client, client.clientBuff
    ensures client.Valid() && client.Carry() == t
  {
    assert temp[p..p + left] == temp[p..][..left];
    client.received := left;
    forall i | 0 <= i < left {
      client.clientBuff[i] := temp[p + i];
    }
    assert client.Carry() == temp[p..p + left];
  }

  /** One turn of the loop: a whole message is handed on, or the rest is saved. */
  method Turn(client: ClientConnection, temp: array<Byte>, p: nat,
              ghost t: seq<Byte>, ghost after: seq<Byte>, left: nat)
    returns (message: Option<seq<Byte>>)
    requires client.Valid() && temp != client.clientBuff && temp.Length == BUFFER_SIZE
    requires p <= temp.Length && temp[p..] == t + after && |t| == left > 0
    requires Framed(t) && RestRecognised(Parse(t).rest, after)
    modifies client, client.clientBuff, temp
    ensures client.Valid()
    ensures message == None ==> Parse(t) == Parsed([], t) && client.Carry() == t
    ensures message.Some? ==>
              var n := |message.value|;
              && HEADER_LENGTH <= n <= left && Framed(t[n..]) && temp[p + n..] == t[n..] + after
              && Parse(t).messages == [message.value] + Parse(t[n..]).messages
              && Parse(t).rest == Parse(t[n..]).rest
              && (n == left ==> client.Carry() == [])
  {
    LoopHead(t, after);
    var length := Peek(temp, p, t, after);
    if length > left {
      Save(client, temp, p, left, t, after);
      message := None;
    } else {
      var m := Handle(temp, p, length, t, after);
      if left <= length {
        client.received := 0;
      }
      message := Some(m);
    }
  }

  method Unpack(client: ClientConnection, temp: array<Byte>, total: nat, ghost s: seq<Byte>, ghost after: seq<Byte>)
    returns (messages: seq<seq<Byte>>)
    requires client.Valid() && temp != client.clientBuff && temp.Length == BUFFER_SIZE
    requires temp[0..] == s + after && |s| == total > 0
    requires Framed(s) && RestRecognised(Parse(s).rest, after)
    modifies client, client.clientBuff, temp
    ensures client.Valid()
    ensures messages == Parse(s).messages && client.Carry() == Parse(s).rest
  {
    ghost var t := s;
    var p: nat, left: nat := 0, total;
    messages := [];
    var more := true;
    while more
      invariant client.Valid() && p + left == total
      invariant more ==> temp[p..] == t + after && |t| == left > 0 && StillToParse(s, messages, t)
      invariant !more ==> Parse(s) == Parsed(messages, client.Carry())
      decreases more, left
    {
      var message := Turn(client, temp, p, t, after, left);
      more := false;
      if message.Some? {
        ParseOn(s, messages, t, message.value);
        messages := messages + [message.value];
        t := t[|message.value|..];
        p := p + |message.value|;
        left := left - |message.value|;
        more := left > 0;
      }
      ParseEnds(s, messages, t);
    }
  }

  lemma ParseOn(s: seq<Byte>, messages: seq<seq<Byte>>, t: seq<Byte>, m: seq<Byte>)
    requires StillToParse(s, messages, t) && |m| <= |t| && Framed(t[|m|..])
    requires Parse(t).messages == [m] + Parse(t[|m|..]).messages && Parse(t).rest == Parse(t[|m|..]).rest
    ensures StillToParse(s, messages + [m], t[|m|..])
  {
    var later := Parse(t[|m|..]).messages;
    assert messages + ([m] + later) == (messages + [m]) + later;
  }

  lemma ParseEnds(s: seq<Byte>, messages: seq<seq<Byte>>, t: seq<Byte>)
    requires StillToParse(s, messages, t)
    ensures Parse(t) == Parsed([], t) ==> Parse(s) == Parsed(messages, t)
    ensures t == [] ==> Parse(t) == Parsed([], t)
  {
    assert messages + [] == messages;
  }

  /** The messages so far, and what `t` still holds, are the parse of `s`. */
  ghost predicate StillToParse(s: seq<Byte>, messages: seq<seq<Byte>>, t: seq<Byte>)
  {
    Framed(t) && Parse(s) == Parsed(messages + Parse(t).messages, Parse(t).rest)
  }

  /** One read of a client socket. `temp` is the thread's buffer, still holding what
      earlier reads left there; `chunk` is what `recv` delivered. The messages handed
      on are exactly those of the reference parse of carry-over and chunk, and the new
      carry-over is its rest. */
  method OnReadable(client: ClientConnection, temp: array<Byte>, chunk: seq<Byte>)
    returns (messages: seq<seq<Byte>>)
    requires client.Valid() && temp != client.clientBuff && temp.Length == BUFFER_SIZE
    requires 0 < |chunk| <= BUFFER_SIZE - client.received
    requires Framed(client.Carry() + chunk)
    requires var total := client.received + |chunk|;
             var after := if client.received == 0 then Zeros(BUFFER_SIZE - total) else temp[total..];
             RestRecognised(Parse(client.Carry() + chunk).rest, after)
    modifies client, client.clientBuff, temp
    ensures client.Valid()
    ensures messages == Parse(old(client.Carry()) + chunk).messages
    ensures client.Carry() == Parse(old(client.Carry()) + chunk).rest
  {
    ghost var s := client.Carry() + chunk;
    var total := client.received + |chunk|;
    Receive(client, temp, chunk);
    ghost var after := temp[total..];
    assert temp[0..] == temp[..total] + after;
    messages := Unpack(client, temp, total, s, after);
  }

  // ------------------------------------------------------------ all reads

  /** The stream up to and without the chunk with number `k`. */
  function Before(carry: seq<Byte>, chunks: seq<seq<Byte>>, k: nat): (s: seq<Byte>)
    requires k <= |chunks|
  {
    carry + Concat(chunks[..k])
  }

  /** A chunk that `recv` can deliver behind what is carried over, and that leaves no rest
      of one to three octets, unless the buffer was cleared and shows it is incomplete. */
  predicate Readable(carry: seq<Byte>, chunks: seq<seq<Byte>>, k: nat)
    requires k < |chunks|
  {
    var rest, next := Parse(Before(carry, chunks, k)).rest, Parse(Before(carry, chunks, k + 1)).rest;
    && 0 < |chunks[k]| <= BUFFER_SIZE - |rest|
    && (|next| in {1, 2, 3} ==> rest == [] && RestRecognised(next, Zeros(BUFFER_SIZE - |chunks[k]|)))
  }

  lemma Extended(carry: seq<Byte>, chunks: seq<seq<Byte>>, k: nat)
    requires k < |chunks|
    ensures Before(carry, chunks, k + 1) == Before(carry, chunks, k) + chunks[k]
  {
    var a, c := chunks[..k], chunks[k];
    assert chunks[..k + 1] == a + [c];
    ConcatAppend(a, [c]);
    ConcatOne(c);
    assert carry + (Concat(a) + c) == (carry + Concat(a)) + c;
  }

  lemma Remaining(carry: seq<Byte>, chunks: seq<seq<Byte>>, k: nat)
    requires k <= |chunks|
    ensures carry + Concat(chunks) == Before(carry, chunks, k) + Concat(chunks[k..])
  {
    var a, b := chunks[..k], chunks[k..];
    assert chunks == a + b;
    ConcatAppend(a, b);
    assert carry + (Concat(a) + Concat(b)) == (carry + Concat(a)) + Concat(b);
  }

  /** What one read needs is what the stream has. */
  lemma ReadFits(carry: seq<Byte>, chunks: seq<seq<Byte>>, k: nat)
    requires k < |chunks| && Framed(carry + Concat(chunks)) && Readable(carry, chunks, k)
    ensures var done, more := Parse(Before(carry, chunks, k)), Parse(Before(carry, chunks, k + 1));
            && Framed(done.rest + chunks[k])
            && more.messages == done.messages + Parse(done.rest + chunks[k]).messages
            && more.rest == Parse(done.rest + chunks[k]).rest
  {
    var s, t := Before(carry, chunks, k), Before(carry, chunks, k + 1);
    Extended(carry, chunks, k);
    Remaining(carry, chunks, k + 1);
    FramedSplit(t, Concat(chunks[k + 1..]));
    FramedSplit(s, chunks[k]);
    ParseSplit(s, chunks[k]);
  }

  /** All reads of a client, for any cutting of a framed stream into readable chunks: the
      messages handed on are those of the whole-stream parse, in order, and the final
      carry-over is what it leaves. */
  method ReadStream(client: ClientConnection, temp: array<Byte>, chunks: seq<seq<Byte>>)
    returns (messages: seq<seq<Byte>>)
    requires client.Valid() && temp != client.clientBuff && temp.Length == BUFFER_SIZE
    requires Parse(client.Carry()) == Parsed([], client.Carry())
    requires Framed(client.Carry() + Concat(chunks))
    requires forall k :: 0 <= k < |chunks| ==> Readable(client.Carry(), chunks, k)
    modifies client, client.clientBuff, temp
    ensures client.Valid()
    ensures messages == Parse(old(client.Carry()) + Concat(chunks)).messages
    ensures client.Carry() == Parse(old(client.Carry()) + Concat(chunks)).rest
  {
    messages := [];
    ghost var carry := client.Carry();
    assert Before(carry, chunks, 0) == carry;
    for i := 0 to |chunks|
      invariant client.Valid()
      invariant messages == Parse(Before(carry, chunks, i)).messages
      invariant client.Carry() == Parse(Before(carry, chunks, i)).rest
    {
      assert Readable(carry, chunks, i);
      ReadFits(carry, chunks, i);
      var more := OnReadable(client, temp, chunks[i]);
      messages := messages + more;
    }
    assert chunks[..|chunks|] == chunks;
  }
}
