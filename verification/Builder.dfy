/** The AVP and message builders (DiaProxy/source/AVP.cpp, DiaMessage.cpp). Objects keep
    their buffers as arrays and fill them in place; what the octets mean is stated
    with `Codec`. */
module Builder {
  import opened Octets
  import opened Codec

  const POINTER_SIZE: nat := 8          // sizeof (puchar)

  // AVP codes as the header structure stores them on a little-endian machine.
  const HOST_IP_ADDRESS: Word := 0x0101_0000
  const AUTH_APPLICATION_ID: Word := 0x0201_0000
  const VENDOR_SPECIFIC_APPLICATION_ID: Word := 0x0401_0000
  const ORIGIN_HOST: Word := 0x0801_0000
  const SUPPORTED_VENDOR_ID: Word := 0x0901_0000
  const VENDOR_ID: Word := 0x0a01_0000
  const FIRMWARE_REVISION: Word := 0x0b01_0000
  const PRODUCT_NAME: Word := 0x0d01_0000
  const DISCONNECT_CAUSE: Word := 0x1101_0000
  const ORIGIN_REALM: Word := 0x2801_0000

  /** The code on the wire of a constant stored through the structure. */
  function WireCode(stored: Word): (code: Word)
  {
    ReadBig4(Little4(stored), 0)
  }

  /** The swapped constants stand for the codes the walkers look for. */
  lemma WireCodeOf(c: Byte)
    ensures var n: nat := c;
            var stored := n * 0x100_0000 + 0x1_0000;
            stored < 0x1_0000_0000 && WireCode(stored) == 256 + c
  {
    Digits(0, 0, 1, c);
  }

  /** `strlen`: the octets before the first zero. */
  function StrLen(memory: seq<Byte>): (n: nat)
    requires exists i :: 0 <= i < |memory| && memory[i] == 0
    ensures n < |memory| && memory[n] == 0 && forall i :: 0 <= i < n ==> memory[i] != 0
  {
    if memory[0] == 0 then 0 else
      var i :| 0 <= i < |memory| && memory[i] == 0;
      assert memory[1..][i - 1] == 0;
      1 + StrLen(memory[1..])
  }

  /** The data of an AVP made from a C string: the string, except that one shorter
      than four characters is replaced by as many octets as a pointer has. */
  function TextData(memory: seq<Byte>): (d: seq<Byte>)
    requires |memory| >= POINTER_SIZE && exists i :: 0 <= i < |memory| && memory[i] == 0
  {
    if StrLen(memory) < 4 then memory[..POINTER_SIZE] else memory[..StrLen(memory)]
  }

  /** The header as it is stored: code, flags and length. */
  function StoredHeader(code: Word, flags: Byte, length: nat): (h: seq<Byte>)
    ensures |h| == AVP_HEADER_LENGTH && h[5..8] == Big3(length)
    ensures h[4] == flags && ReadBig4(h, 0) == WireCode(code)
  {
    var h := Little4(code) + [flags] + Big3(length);
    assert h[0..0 + 4] == Little4(code)[0..0 + 4];
    SameOctets(h, 0, Little4(code), 0, 4);
    h
  }

  const DEFAULT_HOST_ADDRESS: seq<Byte> := [0x0a, 0x01, 0x14, 0x59]    // DEFAULT_HOST_IP_ADDRESS_IF_FAIL

  /** An octet read as a `char`. */
  function SignedOctet(b: Byte): (c: int)
  {
    if b < 128 then b else b - 256
  }

  /** `is_void`: the sum of the four octets, as signed characters, is zero. */
  predicate IsVoid(address: seq<Byte>)
    requires |address| == 4
  {
    SignedOctet(address[0]) + SignedOctet(address[1]) + SignedOctet(address[2]) + SignedOctet(address[3]) == 0
  }

  function HostAddress(address: seq<Byte>, resolved: Option<seq<Byte>>): (a: seq<Byte>)
    requires |address| == 4
  {
    if !IsVoid(address) then address else if resolved.Some? then resolved.value else DEFAULT_HOST_ADDRESS
  }

  /** Not only 0.0.0.0 looks void: so does every address whose octets add up to 256 for each
      of them that is 128 or more, such as 10.246.0.0. */
  lemma LooksVoid(a: Byte, b: Byte, c: Byte, d: Byte)
    ensures IsVoid([a, b, c, d]) <==> a + b + c + d == 256 * (High(a) + High(b) + High(c) + High(d))
    ensures a < 128 && b < 128 && c < 128 && d < 128 ==> (IsVoid([a, b, c, d]) <==> [a, b, c, d] == [0, 0, 0, 0])
    ensures IsVoid([10, 246, 0, 0])
  {
  }

  function High(b: Byte): (n: nat)
  {
    if b >= 128 then 1 else 0
  }

  class AvpObject {
    var header: seq<Byte>           // the first eight octets of AVP_HEADER
    var dataHead: array<Byte>
    var dataLength: nat
    var offset: nat
    var totalLength: nat

    ghost predicate Valid()
      reads this, dataHead
    {
      && |header| == AVP_HEADER_LENGTH
      && dataLength <= dataHead.Length
      && totalLength == AVP_HEADER_LENGTH + dataLength + Pad(dataLength)
    }

    /** The length written in the header is that of the data held. */
    ghost predicate Complete()
      reads this, dataHead
      requires Valid()
    {
      header[5..8] == Big3(AVP_HEADER_LENGTH + dataLength)
    }

    ghost function Value(): (a: Avp)
      reads this, dataHead
      requires Valid()
    {
      Avp(ReadBig4(header, 0), header[4], dataHead[..dataLength])
    }

    /** The constructor for data of a given length. */
    constructor Raw(code: Word, flags: Byte, length: nat, avpData: seq<Byte>)
      requires length <= |avpData|
      ensures Valid() && Complete() && fresh(dataHead)
      ensures Value() == Avp(WireCode(code), flags, avpData[..length])
    {
      header := StoredHeader(code, flags, AVP_HEADER_LENGTH + length);
      dataHead := new Byte[length](i requires 0 <= i < |avpData| => avpData[i]);
      dataLength, offset := length, 0;
      totalLength := AVP_HEADER_LENGTH + length + Pad(length);
      new;
      assert dataHead[..dataLength] == avpData[..length];
    }

    /** The constructor for C strings. */
    constructor Text(code: Word, flags: Byte, memory: seq<Byte>)
      requires |memory| >= POINTER_SIZE && exists i :: 0 <= i < |memory| && memory[i] == 0
      ensures Valid() && Complete() && fresh(dataHead)
      ensures Value() == Avp(WireCode(code), flags, TextData(memory))
    {
      var length := StrLen(memory);
      if length < 4 {
        length := POINTER_SIZE;
      }
      header := StoredHeader(code, flags, AVP_HEADER_LENGTH + length);
      dataHead := new Byte[length](i requires 0 <= i < |memory| => memory[i]);
      dataLength, offset := length, 0;
      totalLength := AVP_HEADER_LENGTH + length + Pad(length);
      new;
      assert dataHead[..dataLength] == TextData(memory);
    }

    /** The constructor for IPv4 addresses. An address that looks void is replaced by the
        host's own, which the resolver finds or not. */
    constructor Address4(code: Word, flags: Byte, address: seq<Byte>, resolved: Option<seq<Byte>>)
      requires |address| == 4 && (resolved.Some? ==> |resolved.value| == 4)
      ensures Valid() && Complete() && fresh(dataHead)
      ensures Value() == Avp(WireCode(code), flags, [0, 1] + HostAddress(address, resolved))
    {
      var chosen := address;
      if IsVoid(address) {
        chosen := if resolved.Some? then resolved.value else DEFAULT_HOST_ADDRESS;
      }
      header := StoredHeader(code, flags, AVP_HEADER_LENGTH + 6);
      dataHead := new Byte[6](i requires 0 <= i < 6 => if i == 0 then 0 else if i == 1 then 1 else chosen[i - 2]);
      dataLength, offset := 6, 0;
      totalLength := AVP_HEADER_LENGTH + 6 + Pad(6);
      new;
      assert dataHead[..dataLength] == [0, 1] + chosen;
    }

    /** The constructor for IPv6 addresses. */
    constructor Address6(code: Word, flags: Byte, address: seq<Byte>)
      requires |address| == 16
      ensures Valid() && Complete() && fresh(dataHead)
      ensures Value() == Avp(WireCode(code), flags, [0, 2] + address)
    {
      header := StoredHeader(code, flags, AVP_HEADER_LENGTH + 18);
      dataHead := new Byte[18](i requires 0 <= i < 18 => if i == 0 then 0 else if i == 1 then 2 else address[i - 2]);
      dataLength, offset := 18, 0;
      totalLength := AVP_HEADER_LENGTH + 18 + Pad(18);
      new;
      assert dataHead[..dataLength] == [0, 2] + address;
    }

    /** The constructor for grouped AVPs: the header declares a length in advance, the
        buffer has twice that size, and its octets are not set. */
    constructor Composed(code: Word, flags: Byte, declared: nat)
      ensures Valid() && fresh(dataHead) && dataHead.Length == 2 * declared
      ensures header[5..8] == Big3(AVP_HEADER_LENGTH + declared)
      ensures offset == dataLength == 0
      ensures Value() == Avp(WireCode(code), flags, [])
    {
      header := StoredHeader(code, flags, AVP_HEADER_LENGTH + declared);
      dataHead := new Byte[2 * declared];
      dataLength, offset := 0, 0;
      totalLength := AVP_HEADER_LENGTH;
      new;
    }

    /** `get_value`: header and data are copied; the padding counted in the result is
        left as the destination had it. */
    method GetValue(dst: array<Byte>, at: nat) returns (n: nat)
      requires Valid() && dst != dataHead
      requires at + AVP_HEADER_LENGTH + dataLength <= dst.Length
      modifies dst
      ensures n == totalLength
      ensures dst[..at] == old(dst[..at])
      ensures dst[at..at + AVP_HEADER_LENGTH + dataLength] == header + dataHead[..dataLength]
      ensures dst[at + AVP_HEADER_LENGTH + dataLength..] == old(dst[at + AVP_HEADER_LENGTH + dataLength..])
    {
      forall i | 0 <= i < AVP_HEADER_LENGTH {
        dst[at + i] := header[i];
      }
      forall i | 0 <= i < dataLength {
        dst[at + AVP_HEADER_LENGTH + i] := dataHead[i];
      }
      n := totalLength;
    }

    /** `add_sub_attribute`. The child's padding keeps what the buffer held there. */
    method AddSub(sub: AvpObject)
      requires Valid() && sub.Valid() && sub != this && sub.dataHead != dataHead
      requires offset == dataLength && dataLength % 4 == 0
      requires offset + sub.totalLength <= dataHead.Length
      modifies this, dataHead
      ensures Valid() && offset == dataLength && dataLength % 4 == 0
      ensures header == old(header) && dataHead == old(dataHead)
      ensures dataLength == old(dataLength) + sub.totalLength
      ensures var start, used := old(offset), AVP_HEADER_LENGTH + sub.dataLength;
              dataHead[..] == old(dataHead[..start]) + (sub.header + sub.dataHead[..sub.dataLength])
                              + old(dataHead[start + used..])
    {
      ghost var end := offset + AVP_HEADER_LENGTH + sub.dataLength;
      var length := sub.totalLength;
      var pad := BytesToPad(length);
      WholePad(sub.dataLength);
      var n := sub.GetValue(dataHead, offset);
      assert dataHead[..] == dataHead[..offset] + dataHead[offset..end] + dataHead[end..];
      offset := offset + length + pad;
      SumAligned(dataLength, length);
      dataLength := dataLength + length + pad;
      totalLength := AVP_HEADER_LENGTH + dataLength;
    }
  }

  /** A padded length needs no more padding. */
  lemma WholePad(n: nat)
    ensures var total := AVP_HEADER_LENGTH + n + Pad(n); total % 4 == 0 && Pad(total) == 0
  {
    PadAligns(n);
    PadAligns(AVP_HEADER_LENGTH + n + Pad(n));
  }

  /** A complete object's header is the header of the AVP it stands for. */
  lemma HeaderOf(header: seq<Byte>, data: seq<Byte>)
    requires |header| == AVP_HEADER_LENGTH && header[5..8] == Big3(AVP_HEADER_LENGTH + |data|)
    ensures AvpHeader(Avp(ReadBig4(header, 0), header[4], data)) == header
  {
    var c := header[0..4];
    WriteRead(c);
    SameOctets(header, 0, c, 0, 4);
    assert header == c + [header[4]] + header[5..8];
  }

  // -------------------------------------------------------------- grouped AVPs

  /** The children's total length, as the source adds it up before it makes the group. */
  method SumOfLengths(children: seq<AvpObject>, ghost values: seq<Avp>) returns (length: nat)
    requires AreComplete(children, values)
    ensures length == |EncodeAvps(values)|
  {
    length := 0;
    for i := 0 to |children|
      invariant length == |EncodeAvps(values[..i])|
    {
      assert children[i].Value() == values[i];
      EncodeAppend(values[..i], values[i]);
      assert values[..i + 1] == values[..i] + [values[i]];
      length := length + children[i].totalLength;
    }
    assert values[..|children|] == values;
  }

  ghost predicate AreComplete(children: seq<AvpObject>, values: seq<Avp>)
    reads children, set c | c in children :: c.dataHead
  {
    |children| == |values| && forall i :: 0 <= i < |children| ==>
      children[i].Valid() && children[i].Complete() && children[i].Value() == values[i]
  }

  /** A grouped AVP, declared with the sum of its children, for any list of complete children.
      The octets in the places of the paddings are what the memory of its buffer happened to
      hold. Whatever they are, the group is complete and its data read back as the children's
      values; and they are the data of the group proper exactly if those octets are zero. */
  method MakeGroup(code: Word, flags: Byte, children: seq<AvpObject>, ghost values: seq<Avp>)
    returns (parent: AvpObject, ghost pads: seq<seq<Byte>>)
    requires AreComplete(children, values) && (forall i :: 0 <= i < |values| ==> Fits(values[i]))
    ensures fresh(parent) && fresh(parent.dataHead) && parent.Valid() && parent.Complete()
    ensures PadsFit(values, pads) && parent.dataLength == |EncodeAvps(values)|
    ensures var a := parent.Value();
            && a == Avp(WireCode(code), flags, EncodeAllWith(values, pads))
            && WellFormed(a.data, 0) && Decode(a.data, 0) == values
            && (a == Group(WireCode(code), flags, values) <==> AllZero(pads))
  {
    parent, pads := FillGroup(code, flags, children, values);
    GroupData(code, flags, values, pads);
  }

  method FillGroup(code: Word, flags: Byte, children: seq<AvpObject>, ghost values: seq<Avp>)
    returns (parent: AvpObject, ghost pads: seq<seq<Byte>>)
    requires AreComplete(children, values)
    ensures fresh(parent) && fresh(parent.dataHead) && parent.Valid() && parent.Complete()
    ensures PadsFit(values, pads) && parent.dataLength == |EncodeAvps(values)|
    ensures parent.Value() == Avp(WireCode(code), flags, EncodeAllWith(values, pads))
  {
    var length := SumOfLengths(children, values);
    parent := EmptyGroup(code, flags, length);
    ghost var header := parent.header;
    pads := AddSubs(parent, children, values);
    assert parent.dataLength == length && parent.header == header;
  }

  /** A grouped AVP without children. */
  method EmptyGroup(code: Word, flags: Byte, length: nat) returns (parent: AvpObject)
    ensures fresh(parent) && fresh(parent.dataHead) && parent.dataHead.Length == 2 * length
    ensures InProgress(parent, [], []) && parent.header[5..8] == Big3(AVP_HEADER_LENGTH + length)
    ensures ReadBig4(parent.header, 0) == WireCode(code) && parent.header[4] == flags
  {
    parent := new AvpObject.Composed(code, flags, length);
    ghost var a := parent.Value();
    assert a.code == ReadBig4(parent.header, 0) && a.flags == parent.header[4];
    assert parent.dataHead[..0] == [];
  }

  lemma GroupData(code: Word, flags: Byte, values: seq<Avp>, pads: seq<seq<Byte>>)
    requires PadsFit(values, pads) && (forall i :: 0 <= i < |values| ==> Fits(values[i]))
    ensures var d := EncodeAllWith(values, pads);
            && |d| == |EncodeAvps(values)| && WellFormed(d, 0) && Decode(d, 0) == values
            && (Avp(WireCode(code), flags, d) == Group(WireCode(code), flags, values) <==> AllZero(pads))
  {
    PaddingMatters(values, pads);
    DecodeAnyPadding([], values, pads);
    assert [] + EncodeAllWith(values, pads) == EncodeAllWith(values, pads);
  }

  /** A group with some of its children in it. */
  ghost predicate InProgress(parent: AvpObject, done: seq<Avp>, pads: seq<seq<Byte>>)
    reads parent, parent.dataHead
  {
    && parent.Valid() && parent.offset == parent.dataLength == |EncodeAvps(done)| && parent.dataLength % 4 == 0
    && PadsFit(done, pads) && parent.dataHead[..parent.dataLength] == EncodeAllWith(done, pads)
  }

  method AddSubs(parent: AvpObject, children: seq<AvpObject>, ghost values: seq<Avp>)
    returns (ghost pads: seq<seq<Byte>>)
    requires InProgress(parent, [], []) && |EncodeAvps(values)| <= parent.dataHead.Length
    requires AreComplete(children, values)
    requires forall c :: c in children ==> c != parent && c.dataHead != parent.dataHead
    modifies parent, parent.dataHead
    ensures parent.header == old(parent.header) && parent.dataHead == old(parent.dataHead)
    ensures InProgress(parent, values, pads)
  {
    pads := [];
    for i := 0 to |children|
      invariant parent.header == old(parent.header) && parent.dataHead == old(parent.dataHead)
      invariant InProgress(parent, values[..i], pads)
      invariant AreComplete(children, values)
    {
      assert children[i] in children;
      Room(values, i);
      ghost var pad := AddOne(parent, children[i], values[i], values[..i], pads);
      pads := pads + [pad];
    }
    assert values[..|children|] == values;
  }

  method AddOne(parent: AvpObject, child: AvpObject, ghost a: Avp, ghost done: seq<Avp>, ghost pads: seq<seq<Byte>>)
    returns (ghost pad: seq<Byte>)
    requires InProgress(parent, done, pads) && child.Valid() && child.Complete() && child.Value() == a
    requires child != parent && child.dataHead != parent.dataHead
    requires |EncodeAvps(done)| + |EncodeAvp(a)| <= parent.dataHead.Length
    modifies parent, parent.dataHead
    ensures parent.header == old(parent.header) && parent.dataHead == old(parent.dataHead)
    ensures InProgress(parent, done + [a], pads + [pad])
  {
    ghost var was, n, e := parent.dataHead[..], parent.dataLength, AvpHeader(a) + a.data;
    HeaderOf(child.header, a.data);
    parent.AddSub(child);
    pad := was[n + |e|..n + |EncodeAvp(a)|];
    Spliced(was, parent.dataHead[..], n, e, n + |EncodeAvp(a)|);
    EncodeAppend(done, a);
    assert parent.dataHead[..parent.dataLength] == EncodeAllWith(done, pads) + EncodeWith(a, pad);
    OneMore(done, pads, a, pad);
  }

  lemma OneMore(done: seq<Avp>, pads: seq<seq<Byte>>, a: Avp, pad: seq<Byte>)
    requires PadsFit(done, pads) && |pad| == Pad(|a.data|)
    ensures PadsFit(done + [a], pads + [pad])
    ensures EncodeAllWith(done + [a], pads + [pad]) == EncodeAllWith(done, pads) + EncodeWith(a, pad)
  {
    EncodeWithAppend(done, pads, a, pad);
  }

  lemma Spliced(was: seq<Byte>, now: seq<Byte>, n: nat, e: seq<Byte>, end: nat)
    requires n + |e| <= end <= |was| && now == was[..n] + e + was[n + |e|..]
    ensures now[..end] == was[..n] + (e + was[n + |e|..end])
  {
    assert was[n + |e|..end] == was[n + |e|..][..end - n - |e|];
  }

  /** The AVPs up to number `i` take no more room than all. */
  lemma Room(values: seq<Avp>, i: nat)
    requires i < |values|
    ensures |EncodeAvps(values[..i])| + |EncodeAvp(values[i])| <= |EncodeAvps(values)|
    ensures values[..i + 1] == values[..i] + [values[i]]
  {
    EncodeAppend(values[..i], values[i]);
    assert values[..i + 1] == values[..i] + [values[i]];
    EncodeJoin(values[..i + 1], values[i + 1..]);
    assert values == values[..i + 1] + values[i + 1..];
  }

  class DiaMessage {
    const buffer: array<Byte>
    var dataPointer: nat            // offset of the pointer from the start of the buffer
    var head: seq<Byte>
    ghost var avps: seq<Avp>        // what has been added so far

    ghost predicate Valid()
      reads this, buffer
    {
      && buffer.Length == BUFFER_SIZE
      && |head| == HEADER_LENGTH
      && HEADER_LENGTH <= dataPointer <= BUFFER_SIZE
      && buffer[HEADER_LENGTH..dataPointer] == EncodeAvps(avps)
      && forall i :: dataPointer <= i < BUFFER_SIZE ==> buffer[i] == 0
    }

    /** The two identifiers come from the random generator. */
    constructor (hop: Word, end: Word)
      ensures Valid() && fresh(buffer) && avps == [] && dataPointer == HEADER_LENGTH
      ensures head == [1, 0, 0, 0, 0x80, 0, 0, 0, 0, 0, 0, 0] + Little4(hop) + Little4(end)
    {
      buffer := new Byte[BUFFER_SIZE](_ => 0);
      dataPointer, avps := HEADER_LENGTH, [];
      head := [1, 0, 0, 0, 0x80, 0, 0, 0, 0, 0, 0, 0] + Little4(hop) + Little4(end);
      new;
      forall i | 0 <= i < HEADER_LENGTH {
        buffer[i] := head[i];
      }
      assert buffer[HEADER_LENGTH..dataPointer] == [];
    }

    method SetCmdCode(c1: Byte, c2: Byte)
      requires Valid()
      modifies this
      ensures Valid() && head == old(head)[6 := c1][7 := c2]
      ensures dataPointer == old(dataPointer) && avps == old(avps)
    {
      head := head[6 := c1][7 := c2];
    }

    /** `addAVP`: header and data are copied behind what is there, and the pointer moves
        over the padding, which is zero because nothing has been written there. */
    method AddAvp(avp: AvpObject)
      requires Valid() && avp.Valid() && avp.Complete() && avp.dataHead != buffer
      requires dataPointer + avp.totalLength <= BUFFER_SIZE
      modifies this, buffer
      ensures Valid() && head == old(head)
      ensures avps == old(avps) + [avp.Value()]
      ensures dataPointer == old(dataPointer) + avp.totalLength
    {
      ghost var before := buffer[HEADER_LENGTH..dataPointer];
      ghost var start, a := dataPointer, avp.Value();
      var n := avp.GetValue(buffer, dataPointer);
      ghost var stop := start + AVP_HEADER_LENGTH + avp.dataLength;
      Copied(buffer[..], before, start, stop, a, avp.header, avp.dataHead[..avp.dataLength], old(buffer[..]));
      dataPointer := dataPointer + n;
      EncodeAppend(avps, a);
      avps := avps + [a];
    }

    /** `message`: the length field is set to the size of the message, whatever it was. */
    method Message(msg: array<Byte>) returns (size: nat)
      requires Valid() && msg != buffer && msg.Length == BUFFER_SIZE
      modifies this, buffer, msg
      ensures Valid() && avps == old(avps) && size == dataPointer == old(dataPointer)
      ensures head == Sized(old(head), size)
      ensures msg[..size] == Sized(old(head), size) + EncodeAvps(avps)
    {
      size := dataPointer;
      var b := Big3(size);
      head := head[1 := b[0]][2 := b[1]][3 := b[2]];
      forall i | 0 <= i < HEADER_LENGTH {
        buffer[i] := head[i];
      }
      assert buffer[HEADER_LENGTH..dataPointer] == old(buffer[HEADER_LENGTH..dataPointer]);
      forall i | 0 <= i < size {
        msg[i] := buffer[i];
      }
      assert msg[..size] == buffer[..HEADER_LENGTH] + buffer[HEADER_LENGTH..dataPointer];
      assert buffer[..HEADER_LENGTH] == head;
    }
  }

  /** A header with its length field set. */
  function Sized(head: seq<Byte>, size: nat): (h: seq<Byte>)
    requires |head| == HEADER_LENGTH
    ensures |h| == HEADER_LENGTH
  {
    var b := Big3(size);
    head[1 := b[0]][2 := b[1]][3 := b[2]]
  }

  lemma SizedLength(head: seq<Byte>, size: nat, body: seq<Byte>)
    requires |head| == HEADER_LENGTH && size < 0x100_0000
    ensures MessageLength(Sized(head, size) + body) == size
    ensures forall i :: 0 <= i < HEADER_LENGTH && !(1 <= i < 4) ==> (Sized(head, size) + body)[i] == head[i]
  {
    var m, b := Sized(head, size) + body, Big3(size);
    ReadWrite(size);
    assert m[1..1 + 3] == b[0..0 + 3];
    SameOctets(m, 1, b, 0, 3);
  }

  /** What `get_value` leaves in a zeroed buffer is the encoded AVP. */
  lemma Copied(now: seq<Byte>, before: seq<Byte>, start: nat, stop: nat, a: Avp,
               header: seq<Byte>, data: seq<Byte>, was: seq<Byte>)
    requires |now| == |was| == BUFFER_SIZE && |header| == AVP_HEADER_LENGTH
    requires HEADER_LENGTH <= start <= stop <= stop + Pad(|data|) <= BUFFER_SIZE
    requires before == was[HEADER_LENGTH..start] && stop == start + AVP_HEADER_LENGTH + |data|
    requires header[5..8] == Big3(AVP_HEADER_LENGTH + |data|)
    requires a == Avp(ReadBig4(header, 0), header[4], data)
    requires forall i :: start <= i < BUFFER_SIZE ==> was[i] == 0
    requires now[..start] == was[..start] && now[start..stop] == header + data && now[stop..] == was[stop..]
    ensures now[HEADER_LENGTH..stop + Pad(|data|)] == before + EncodeAvp(a)
    ensures forall i :: stop <= i < BUFFER_SIZE ==> now[i] == 0
  {
    HeaderOf(header, data);
    var end := stop + Pad(|data|);
    assert forall i :: stop <= i < BUFFER_SIZE ==> now[i] == now[stop..][i - stop] == was[stop..][i - stop] == was[i];
    assert now[stop..end] == Zeros(Pad(|data|));
    assert now[HEADER_LENGTH..start] == before by {
      assert now[HEADER_LENGTH..start] == now[..start][HEADER_LENGTH..] == was[..start][HEADER_LENGTH..];
    }
    assert now[HEADER_LENGTH..end] == now[HEADER_LENGTH..start] + now[start..stop] + now[stop..end];
    assert EncodeAvp(a) == header + data + Zeros(Pad(|data|));
  }
}
