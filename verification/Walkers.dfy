/** The hand-written AVP walkers: `extractAVP` and `extractResultCodeAVP`
    (DiaProxy/source/Utils.cpp) and the walk over a Capabilities-Exchange-Answer in
    `receive_CEA` (DiaProxy/source/DiaThread.cpp). All three are proved against the
    one reference reader, `Codec.Decode`. */
module Walkers {
  import opened Octets
  import opened Codec

  const RESULTCODE_CODE: nat := 268
  const EXPERIMENTAL_RESULTCODE_CODE: nat := 297
  const VENDOR_ID_CODE: nat := 266
  const NESTED_RESULTCODE_CODE: nat := 298       // Experimental-Result-Code, RFC 6733 section 7.7
  const DIAMETER_SUCCESS: nat := 2001
  const SWAPPED_RESULT_CODE: Word := 0x0c01_0000 // result__code on a little-endian machine
  const SWAPPED_SUCCESS: Word := 0xd107_0000     // result__diameter__success

  /** The modulo test of the two `extract` functions and the counting loop of the CEA
      walk advance to the same place. */
  lemma SameAdvance(length: nat)
    ensures (if length % 4 != 0 then length + 4 - length % 4 else length) == length + Pad(length)
  {
  }

  /** What a walker reads at `ptr` in its buffer is the header of the AVP there. */
  lemma HeaderRead(buff: seq<Byte>, n: nat, ptr: nat)
    requires n <= |buff| && ptr + AVP_HEADER_LENGTH <= n
    ensures ReadBig4(buff, ptr) == CodeAt(buff[..n], ptr)
    ensures ReadBig3(buff, ptr + 5) == LengthAt(buff[..n], ptr)
  {
    var m := buff[..n];
    assert m[ptr..ptr + 4] == buff[ptr..ptr + 4];
    SameOctets(m, ptr, buff, ptr, 4);
    assert m[ptr + 5..ptr + 5 + 3] == buff[ptr + 5..ptr + 5 + 3];
    SameOctets(m, ptr + 5, buff, ptr + 5, 3);
  }

  /** What the search for a code needs of the first `n` octets of a buffer: the headers it
      meets are in the buffer, none of those it passes has length zero, and the AVP it finds is
      in the buffer too. What comes behind that AVP plays no part. */
  predicate Searchable(buff: seq<Byte>, n: nat, off: nat, code: nat)
    decreases n - off
  {
    off >= n
    || (&& off + AVP_HEADER_LENGTH <= |buff|
        && if CodeAt(buff, off) == code
           then AVP_HEADER_LENGTH <= LengthAt(buff, off) && off + LengthAt(buff, off) <= |buff|
           else LengthAt(buff, off) > 0 && Searchable(buff, n, Next(buff, off), code))
  }

  /** The data of the first AVP with the code. */
  function FirstValue(buff: seq<Byte>, n: nat, off: nat, code: nat): (d: Option<seq<Byte>>)
    requires Searchable(buff, n, off, code)
    decreases n - off
  {
    if off >= n then None
    else if CodeAt(buff, off) == code then Some(AvpAt(buff, off).data)
    else FirstValue(buff, n, Next(buff, off), code)
  }

  /** `extractAVP`. `code` is one of the constants of `_AvpCode`, all far below 2^31. */
  method ExtractAvp(buff: seq<Byte>, messageLength: nat, code: nat) returns (found: bool, value: seq<Byte>)
    requires messageLength <= |buff| && code < 0x8000_0000
    requires Searchable(buff, messageLength, HEADER_LENGTH, code)
    ensures (if found then Some(value) else None) == FirstValue(buff, messageLength, HEADER_LENGTH, code)
    ensures WellFormed(buff[..messageLength], HEADER_LENGTH) ==>
              (if found then Some(value) else None) == Lookup(buff[..messageLength], code)
  {
    var ptr: nat := HEADER_LENGTH;
    found, value := false, [];
    ghost var goal := FirstValue(buff, messageLength, HEADER_LENGTH, code);
    while ptr < messageLength && !found
      invariant !found ==> Searchable(buff, messageLength, ptr, code)
      invariant !found ==> FirstValue(buff, messageLength, ptr, code) == goal
      invariant found ==> goal == Some(value)
      decreases !found, messageLength - ptr
    {
      var start := ptr;
      var avpCode := ReadBig4(buff, ptr);
      ptr := ptr + 5;
      var avpLength := ReadBig3(buff, ptr);
      ptr := ptr + 3;
      if Signed(avpCode) == code {
        value := buff[ptr..ptr + (avpLength - 8)];
        found := true;
      } else {
        var padded := avpLength;
        if avpLength % 4 != 0 {
          padded := padded + 4 - avpLength % 4;
        }
        SameAdvance(avpLength);
        ptr := start + padded;
      }
    }
    if WellFormed(buff[..messageLength], HEADER_LENGTH) {
      FirstValueIsLookup(buff, messageLength, HEADER_LENGTH, code);
    }
  }

  /** On a well-formed message it can always be done, and is the look-up in the list of AVPs. */
  lemma {:induction false} FirstValueIsLookup(buff: seq<Byte>, n: nat, off: nat, code: nat)
    requires n <= |buff| && WellFormed(buff[..n], off)
    ensures Searchable(buff, n, off, code)
    ensures FirstValue(buff, n, off, code) == FirstData(Decode(buff[..n], off), code)
    decreases n - off
  {
    if off < n {
      var m := buff[..n];
      HeaderRead(buff, n, off);
      LookupStep(m, off, code);
      assert AvpAt(m, off).data == buff[off + AVP_HEADER_LENGTH..off + LengthAt(m, off)];
      if CodeAt(m, off) != code {
        FirstValueIsLookup(buff, n, Next(m, off), code);
      }
    }
  }

  // ------------------------------------------------------ the result code

  /** Where the first Result-Code or Experimental-Result AVP starts. */
  function ResultAt(m: seq<Byte>, off: nat): (at: Option<nat>)
    requires WellFormed(m, off)
    ensures at.Some? ==> at.value < |m| && at.value + AVP_HEADER_LENGTH <= |m|
    decreases |m| - off
  {
    if off >= |m| then None
    else if CodeAt(m, off) in {RESULTCODE_CODE, EXPERIMENTAL_RESULTCODE_CODE} then Some(off)
    else ResultAt(m, Next(m, off))
  }

  /** How far behind the AVP header the walker reads the value: straight away for
      Result-Code, twenty octets further for Experimental-Result. */
  function ValueOffset(code: nat): (k: nat)
  {
    if code == RESULTCODE_CODE then AVP_HEADER_LENGTH else AVP_HEADER_LENGTH + 20
  }

  /** What the search for a result code needs: as before, and the four octets of the value,
      which are read without looking at the AVP's length. */
  predicate ResultSearchable(buff: seq<Byte>, n: nat, off: nat)
    decreases n - off
  {
    off >= n
    || (&& off + AVP_HEADER_LENGTH <= |buff|
        && if CodeAt(buff, off) in {RESULTCODE_CODE, EXPERIMENTAL_RESULTCODE_CODE}
           then off + ValueOffset(CodeAt(buff, off)) + 4 <= |buff|
           else LengthAt(buff, off) > 0 && ResultSearchable(buff, n, Next(buff, off)))
  }

  /** The number in the first result AVP. */
  function ResultIn(buff: seq<Byte>, n: nat, off: nat): (value: Option<int>)
    requires ResultSearchable(buff, n, off)
    decreases n - off
  {
    if off >= n then None
    else if CodeAt(buff, off) in {RESULTCODE_CODE, EXPERIMENTAL_RESULTCODE_CODE}
    then Some(Signed(ReadBig4(buff, off + ValueOffset(CodeAt(buff, off)))))
    else ResultIn(buff, n, Next(buff, off))
  }

  /** `extractResultCodeAVP`. */
  method ExtractResultCode(buff: seq<Byte>, messageLength: nat) returns (found: bool, value: int)
    requires messageLength <= |buff| && ResultSearchable(buff, messageLength, HEADER_LENGTH)
    ensures (if found then Some(value) else None) == ResultIn(buff, messageLength, HEADER_LENGTH)
  {
    var ptr: nat := HEADER_LENGTH;
    found, value := false, 0;
    ghost var goal := ResultIn(buff, messageLength, HEADER_LENGTH);
    while ptr < messageLength && !found
      invariant !found ==> ResultSearchable(buff, messageLength, ptr)
      invariant !found ==> ResultIn(buff, messageLength, ptr) == goal
      invariant found ==> goal == Some(value)
      decreases !found, messageLength - ptr
    {
      var start := ptr;
      var avpCode := ReadBig4(buff, ptr);
      ptr := ptr + 5;
      var avpLength := ReadBig3(buff, ptr);
      ptr := ptr + 3;
      if Signed(avpCode) == RESULTCODE_CODE {
        value := Signed(ReadBig4(buff, ptr));
        found := true;
      } else if Signed(avpCode) == EXPERIMENTAL_RESULTCODE_CODE {
        ptr := ptr + 20;
        value := Signed(ReadBig4(buff, ptr));
        found := true;
      } else {
        var padded := avpLength;
        if avpLength % 4 != 0 {
          padded := padded + 4 - avpLength % 4;
        }
        SameAdvance(avpLength);
        ptr := start + padded;
      }
    }
  }

  /** A well-formed message with 32 octets of buffer behind it can always be searched, and the
      number is read in its first result AVP. */
  lemma {:induction false} ResultInMessage(buff: seq<Byte>, n: nat, off: nat)
    requires n + 32 <= |buff| && WellFormed(buff[..n], off)
    ensures ResultSearchable(buff, n, off)
    ensures var m := buff[..n];
            ResultIn(buff, n, off) == match ResultAt(m, off)
              case None => None
              case Some(at) => Some(Signed(ReadBig4(buff, at + ValueOffset(CodeAt(m, at)))))
    decreases n - off
  {
    if off < n {
      var m := buff[..n];
      HeaderRead(buff, n, off);
      if CodeAt(m, off) !in {RESULTCODE_CODE, EXPERIMENTAL_RESULTCODE_CODE} {
        ResultInMessage(buff, n, Next(m, off));
      }
    }
  }

  /** The first Result-Code or Experimental-Result AVP of a list. */
  function FirstResult(avps: seq<Avp>): (a: Option<Avp>)
  {
    if avps == [] then None
    else if avps[0].code in {RESULTCODE_CODE, EXPERIMENTAL_RESULTCODE_CODE} then Some(avps[0])
    else FirstResult(avps[1..])
  }

  /** The position found is that of the first result AVP of the decoded message. */
  lemma {:induction false} ResultAtIsFirst(m: seq<Byte>, off: nat)
    requires WellFormed(m, off)
    ensures ResultAt(m, off) == None <==> FirstResult(Decode(m, off)) == None
    ensures ResultAt(m, off).Some? ==>
              var at := ResultAt(m, off).value;
              && AVP_HEADER_LENGTH <= LengthAt(m, at) && at + LengthAt(m, at) <= |m|
              && FirstResult(Decode(m, off)) == Some(AvpAt(m, at))
    decreases |m| - off
  {
    if off < |m| {
      var all, next := Decode(m, off), Next(m, off);
      assert all[0] == AvpAt(m, off) && all[1..] == Decode(m, next);
      if all[0].code !in {RESULTCODE_CODE, EXPERIMENTAL_RESULTCODE_CODE} {
        ResultAtIsFirst(m, next);
        assert FirstResult(all) == FirstResult(all[1..]);
      }
    }
  }

  /** The number in the data of a result AVP: its first four octets for Result-Code,
      four octets at position twenty for Experimental-Result. */
  function ResultNumber(a: Avp): (n: int)
    requires |a.data| >= if a.code == RESULTCODE_CODE then 4 else 24
  {
    Signed(ReadBig4(a.data, if a.code == RESULTCODE_CODE then 0 else 20))
  }

  /** What the walker reports is the number in the first result AVP of the message.
      What follows the message in the buffer plays no part. */
  lemma ResultCodeIsFirst(buff: seq<Byte>, n: nat)
    requires n + 32 <= |buff| && WellFormed(buff[..n], HEADER_LENGTH)
    requires var a := FirstResult(Decode(buff[..n], HEADER_LENGTH));
             a.Some? ==> |a.value.data| >= if a.value.code == RESULTCODE_CODE then 4 else 24
    ensures ResultSearchable(buff, n, HEADER_LENGTH)
    ensures var a := FirstResult(Decode(buff[..n], HEADER_LENGTH));
            ResultIn(buff, n, HEADER_LENGTH) == if a.Some? then Some(ResultNumber(a.value)) else None
  {
    var m := buff[..n];
    ResultInMessage(buff, n, HEADER_LENGTH);
    ResultAtIsFirst(m, HEADER_LENGTH);
    if ResultAt(m, HEADER_LENGTH).Some? {
      var at := ResultAt(m, HEADER_LENGTH).value;
      var a := AvpAt(m, at);
      var k := if a.code == RESULTCODE_CODE then 0 else 20;
      DataOctets(buff, n, at, k);
      assert at + ValueOffset(CodeAt(m, at)) == at + AVP_HEADER_LENGTH + k;
    }
  }

  lemma DataOctets(buff: seq<Byte>, n: nat, at: nat, k: nat)
    requires n <= |buff| && at + AVP_HEADER_LENGTH <= n
    requires AVP_HEADER_LENGTH <= LengthAt(buff[..n], at) && at + LengthAt(buff[..n], at) <= n
    requires k + 4 <= |AvpAt(buff[..n], at).data|
    ensures ReadBig4(AvpAt(buff[..n], at).data, k) == ReadBig4(buff, at + AVP_HEADER_LENGTH + k)
  {
    var d, p, q := AvpAt(buff[..n], at).data, at + AVP_HEADER_LENGTH + k, at + AVP_HEADER_LENGTH;
    assert d == buff[q..q + |d|];
    assert d[k..k + 4] == buff[q..q + |d|][k..k + 4] == buff[p..p + 4];
    SameOctets(d, k, buff, p, 4);
  }

  /** An Experimental-Result group, its Vendor-Id first as section 7.6 of RFC 6733
      prints it: the twenty-octet skip lands on the nested code, so the walker
      returns the Experimental-Result-Code. */
  lemma SkipLandsOnCode(flags: Byte, vendor: Avp, code: Avp, rest: seq<Avp>)
    requires vendor.code == VENDOR_ID_CODE && |vendor.data| == 4
    requires code.code == NESTED_RESULTCODE_CODE && |code.data| == 4
    ensures var g := Group(EXPERIMENTAL_RESULTCODE_CODE, flags, [vendor, code] + rest);
            |g.data| >= 24 && g.data[20..24] == code.data
  {
    var e1, e2, r := EncodeAvp(vendor), EncodeAvp(code), EncodeAvps(rest);
    TwoFirst(vendor, code, rest);
    var d := e1 + e2 + r;
    assert |e1| == 12 && e2[8..12] == code.data;
    assert d[20..24] == e2[8..12];
  }

  /** With the two AVPs in the other order, which the group's grammar also allows, the
      same skip lands on the Vendor-Id: the walker returns the right number if and
      only if the vendor happens to be numbered like the result. */
  lemma SkipMissesCode(flags: Byte, code: Avp, vendor: Avp, rest: seq<Avp>)
    requires vendor.code == VENDOR_ID_CODE && |vendor.data| == 4
    requires code.code == NESTED_RESULTCODE_CODE && |code.data| == 4
    ensures var g := Group(EXPERIMENTAL_RESULTCODE_CODE, flags, [code, vendor] + rest);
            |g.data| >= 24 && g.data[20..24] == vendor.data
            && (g.data[20..24] == code.data <==> vendor.data == code.data)
  {
    var e1, e2, r := EncodeAvp(code), EncodeAvp(vendor), EncodeAvps(rest);
    TwoFirst(code, vendor, rest);
    var d := e1 + e2 + r;
    assert |e1| == 12 && e2[8..12] == vendor.data;
    assert d[20..24] == e2[8..12];
  }

  lemma TwoFirst(a: Avp, b: Avp, rest: seq<Avp>)
    ensures EncodeAvps([a, b] + rest) == EncodeAvp(a) + EncodeAvp(b) + EncodeAvps(rest)
  {
    assert ([a, b] + rest)[1..] == [b] + rest;
    assert ([b] + rest)[1..] == rest;
  }

  // ---------------------------------------------------------- the CEA walk

  /** What the walk needs of the first `n` octets of a buffer: the headers it meets are in the
      buffer, none of those it passes has length zero, and behind the first Result-Code there
      are four octets more. */
  predicate CeaSearchable(buff: seq<Byte>, n: nat, off: nat)
    decreases n - off
  {
    off >= n
    || (&& off + AVP_HEADER_LENGTH <= |buff|
        && if CodeAt(buff, off) == RESULTCODE_CODE
           then off + AVP_HEADER_LENGTH + 4 <= |buff|
           else LengthAt(buff, off) > 0 && CeaSearchable(buff, n, Next(buff, off)))
  }

  /** The four octets behind the header of the first Result-Code AVP, whatever its length. */
  function ResultWord(buff: seq<Byte>, n: nat, off: nat): (w: Option<Word>)
    requires CeaSearchable(buff, n, off)
    decreases n - off
  {
    if off >= n then None
    else if CodeAt(buff, off) == RESULTCODE_CODE then Some(ReadBig4(buff, off + AVP_HEADER_LENGTH))
    else ResultWord(buff, n, Next(buff, off))
  }

  /** The walk accepts exactly when that word is 2001. */
  method WalkCea(buff: seq<Byte>, messageLength: nat) returns (ok: bool)
    requires messageLength <= |buff| && CeaSearchable(buff, messageLength, HEADER_LENGTH)
    ensures ok <==> ResultWord(buff, messageLength, HEADER_LENGTH) == Some(DIAMETER_SUCCESS)
  {
    var offs: nat := HEADER_LENGTH;
    ok := false;
    SwappedConstants();
    while offs < messageLength
      invariant CeaSearchable(buff, messageLength, offs) && !ok
      invariant ResultWord(buff, messageLength, offs) == ResultWord(buff, messageLength, HEADER_LENGTH)
      decreases messageLength - offs
    {
      var avpLength := ReadBig3(buff, offs + 5);
      SwappedCompare(buff, offs, RESULTCODE_CODE);
      if ReadLittle4(buff, offs) == SWAPPED_RESULT_CODE {
        SwappedCompare(buff, offs + 8, DIAMETER_SUCCESS);
        ok := ReadLittle4(buff, offs + 8) == SWAPPED_SUCCESS;
        return;
      }
      var t := BytesToPad(avpLength);
      offs := offs + avpLength + t;
    }
  }

  lemma SwappedConstants()
    ensures ReadLittle4(Big4(RESULTCODE_CODE), 0) == SWAPPED_RESULT_CODE
    ensures ReadLittle4(Big4(DIAMETER_SUCCESS), 0) == SWAPPED_SUCCESS
  {
  }

  /** There is room for the word of the first Result-Code: it has four octets of data, or there
      are four octets of buffer behind the message. */
  predicate HasRoom(buff: seq<Byte>, n: nat, data: Option<seq<Byte>>)
  {
    data == None || |data.value| >= 4 || n + 4 <= |buff|
  }

  /** In a well-formed message the word starts where the data of the first Result-Code start: it
      is made of these data and, if they are fewer than four octets, of what follows them. */
  lemma {:induction false} ResultWordIs(buff: seq<Byte>, n: nat, off: nat)
    requires n <= |buff| && WellFormed(buff[..n], off)
    requires HasRoom(buff, n, FirstData(Decode(buff[..n], off), RESULTCODE_CODE))
    ensures CeaSearchable(buff, n, off)
    ensures var d := FirstData(Decode(buff[..n], off), RESULTCODE_CODE);
            && (ResultWord(buff, n, off) == None <==> d == None)
            && (d.Some? ==> exists at: nat :: WordFrom(buff, n, at, d.value, ResultWord(buff, n, off).value))
    decreases n - off
  {
    if off < n {
      var m := buff[..n];
      HeaderRead(buff, n, off);
      LookupStep(m, off, RESULTCODE_CODE);
      if CodeAt(m, off) == RESULTCODE_CODE {
        WordHere(buff, n, off, AvpAt(m, off).data);
      } else {
        ResultWordIs(buff, n, Next(m, off));
      }
    }
  }

  lemma WordHere(buff: seq<Byte>, n: nat, off: nat, data: seq<Byte>)
    requires n <= |buff| && off + AVP_HEADER_LENGTH + |data| <= n && HasRoom(buff, n, Some(data))
    requires data == buff[..n][off + AVP_HEADER_LENGTH..off + AVP_HEADER_LENGTH + |data|]
    ensures off + AVP_HEADER_LENGTH + 4 <= |buff|
    ensures WordFrom(buff, n, off + AVP_HEADER_LENGTH, data, ReadBig4(buff, off + AVP_HEADER_LENGTH))
  {
  }

  /** The data stand at `at`, and the word is read from there. */
  predicate WordFrom(buff: seq<Byte>, n: nat, at: nat, data: seq<Byte>, w: Word)
  {
    && at + |data| <= n <= |buff| && at + 4 <= |buff|
    && buff[at..at + |data|] == data && w == ReadBig4(buff, at)
  }

  /** For an answer whose Result-Code AVP carries its four octets, the walk is the
      look-up every other part of the proxy uses. */
  lemma SuccessIsLookup(buff: seq<Byte>, n: nat, off: nat)
    requires n <= |buff| && WellFormed(buff[..n], off)
    requires HasRoom(buff, n, FirstData(Decode(buff[..n], off), RESULTCODE_CODE))
    ensures CeaSearchable(buff, n, off)
    ensures var d := FirstData(Decode(buff[..n], off), RESULTCODE_CODE);
            && (d == None ==> ResultWord(buff, n, off) == None)
            && (d.Some? && |d.value| >= 4 ==> ResultWord(buff, n, off) == Some(ReadBig4(d.value, 0)))
  {
    ResultWordIs(buff, n, off);
    var d := FirstData(Decode(buff[..n], off), RESULTCODE_CODE);
    if d.Some? && |d.value| >= 4 {
      var at: nat :| WordFrom(buff, n, at, d.value, ResultWord(buff, n, off).value);
      WordOfData(buff, n, at, d.value, ResultWord(buff, n, off).value);
    }
  }

  lemma WordOfData(buff: seq<Byte>, n: nat, at: nat, data: seq<Byte>, w: Word)
    requires WordFrom(buff, n, at, data, w) && |data| >= 4
    ensures w == ReadBig4(data, 0)
  {
    assert data[0..0 + 4] == buff[at..at + |data|][0..0 + 4] == buff[at..at + 4];
    SameOctets(data, 0, buff, at, 4);
  }
}
