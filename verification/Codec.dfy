/** The AVP layout of section 4.1 of RFC 6733 as DiaProxy uses it: an eight-octet
    header (code, flags, three-octet length of header and data), the data, and zero
    octets up to a multiple of four. */
module Codec {
  import opened Octets

  const HEADER_LENGTH: nat := 20       // sizeof (DIAMETER_HEADER)
  const AVP_HEADER_LENGTH: nat := 8    // sizeof (AVP_HEADER) - 4
  const CMD_CER: nat := 0x101
  const BUFFER_SIZE: nat := 65535      // DEFAULT_BUFFER_SIZE

  // The AVP codes looked up in messages.
  const USERNAME_CODE: nat := 1
  const ORIGINHOST_CODE: nat := 264
  const DESTINATIONHOST_CODE: nat := 293
  const ORIGINREALM_CODE: nat := 296

  datatype Avp = Avp(code: Word, flags: Byte, data: seq<Byte>)

  predicate Fits(a: Avp)
  {
    AVP_HEADER_LENGTH + |a.data| < 0x100_0000
  }

  function AvpHeader(a: Avp): (h: seq<Byte>)
    ensures |h| == AVP_HEADER_LENGTH
  {
    Big4(a.code) + [a.flags] + Big3(AVP_HEADER_LENGTH + |a.data|)
  }

  /** An AVP with the given octets in the place of its padding. */
  function EncodeWith(a: Avp, pad: seq<Byte>): (e: seq<Byte>)
    ensures |e| == AVP_HEADER_LENGTH + |a.data| + |pad|
  {
    AvpHeader(a) + a.data + pad
  }

  function EncodeAvp(a: Avp): (e: seq<Byte>)
    ensures |e| == AVP_HEADER_LENGTH + |a.data| + Pad(|a.data|)
  {
    EncodeWith(a, Zeros(Pad(|a.data|)))
  }

  function EncodeAvps(avps: seq<Avp>): (e: seq<Byte>)
  {
    if avps == [] then [] else EncodeAvp(avps[0]) + EncodeAvps(avps[1..])
  }

  /** The same for AVPs with any octets in the places of their paddings. */
  function EncodeAllWith(avps: seq<Avp>, pads: seq<seq<Byte>>): (e: seq<Byte>)
    requires |pads| == |avps|
  {
    if avps == [] then [] else EncodeWith(avps[0], pads[0]) + EncodeAllWith(avps[1..], pads[1..])
  }

  predicate PadsFit(avps: seq<Avp>, pads: seq<seq<Byte>>)
  {
    |pads| == |avps| && forall i :: 0 <= i < |avps| ==> |pads[i]| == Pad(|avps[i].data|)
  }

  predicate AllZero(pads: seq<seq<Byte>>)
  {
    forall i :: 0 <= i < |pads| ==> pads[i] == Zeros(|pads[i]|)
  }

  function ZeroPads(avps: seq<Avp>): (pads: seq<seq<Byte>>)
    ensures PadsFit(avps, pads) && AllZero(pads)
  {
    seq(|avps|, i requires 0 <= i < |avps| => Zeros(Pad(|avps[i].data|)))
  }

  /** A grouped AVP (section 4.4): its data are the AVPs it contains. */
  function Group(code: Word, flags: Byte, children: seq<Avp>): (a: Avp)
  {
    Avp(code, flags, EncodeAvps(children))
  }

  // ------------------------------------------------------------- reading

  function CodeAt(m: seq<Byte>, off: nat): (c: Word)
    requires off + AVP_HEADER_LENGTH <= |m|
  {
    ReadBig4(m, off)
  }

  function LengthAt(m: seq<Byte>, off: nat): (n: nat)
    requires off + AVP_HEADER_LENGTH <= |m|
  {
    ReadBig3(m, off + 5)
  }

  function Next(m: seq<Byte>, off: nat): (next: nat)
    requires off + AVP_HEADER_LENGTH <= |m|
  {
    off + LengthAt(m, off) + Pad(LengthAt(m, off))
  }

  /** From `off` on, `m` is a sequence of AVPs. The padding of the last one may be
      missing, as all the walkers accept. */
  predicate WellFormed(m: seq<Byte>, off: nat)
    decreases |m| - off
  {
    off >= |m|
    || (&& off + AVP_HEADER_LENGTH <= |m|
        && LengthAt(m, off) >= AVP_HEADER_LENGTH
        && off + LengthAt(m, off) <= |m|
        && WellFormed(m, Next(m, off)))
  }

  function AvpAt(m: seq<Byte>, off: nat): (a: Avp)
    requires off + AVP_HEADER_LENGTH <= |m|
    requires AVP_HEADER_LENGTH <= LengthAt(m, off) && off + LengthAt(m, off) <= |m|
  {
    Avp(CodeAt(m, off), m[off + 4], m[off + AVP_HEADER_LENGTH..off + LengthAt(m, off)])
  }

  /** The reference reader: every AVP from `off` on, in order. */
  function Decode(m: seq<Byte>, off: nat): (avps: seq<Avp>)
    requires WellFormed(m, off)
    decreases |m| - off
  {
    if off >= |m| then [] else [AvpAt(m, off)] + Decode(m, Next(m, off))
  }

  /** The data of the first AVP with a code. */
  function FirstData(avps: seq<Avp>, code: nat): (d: Option<seq<Byte>>)
  {
    if avps == [] then None
    else if avps[0].code == code then Some(avps[0].data)
    else FirstData(avps[1..], code)
  }

  lemma {:induction false} FirstDataIsFirst(avps: seq<Avp>, code: nat)
    ensures FirstData(avps, code) == None <==> forall i :: 0 <= i < |avps| ==> avps[i].code != code
    ensures FirstData(avps, code).Some? ==>
              exists i :: 0 <= i < |avps| && avps[i].code == code && FirstData(avps, code).value == avps[i].data
                          && forall j :: 0 <= j < i ==> avps[j].code != code
  {
    if avps != [] && avps[0].code != code {
      var rest := avps[1..];
      FirstDataIsFirst(rest, code);
      assert forall i :: 1 <= i < |avps| ==> avps[i] == rest[i - 1];
      if FirstData(rest, code).Some? {
        var k :| 0 <= k < |rest| && rest[k].code == code && FirstData(rest, code).value == rest[k].data
                 && forall j :: 0 <= j < k ==> rest[j].code != code;
        assert avps[k + 1] == rest[k];
      }
    }
  }

  lemma {:induction false} FirstDataAt(avps: seq<Avp>, i: nat)
    requires i < |avps| && forall j :: 0 <= j < i ==> avps[j].code != avps[i].code
    ensures FirstData(avps, avps[i].code) == Some(avps[i].data)
  {
    if i > 0 {
      assert avps[0].code != avps[i].code;
      FirstDataAt(avps[1..], i - 1);
    }
  }

  /** What `extractAVP` is asked for: the data of the first AVP of a message with a code. */
  function Lookup(m: seq<Byte>, code: nat): (d: Option<seq<Byte>>)
    requires WellFormed(m, HEADER_LENGTH)
  {
    FirstData(Decode(m, HEADER_LENGTH), code)
  }

  /** One step of the reference reader. */
  lemma LookupStep(m: seq<Byte>, off: nat, code: nat)
    requires WellFormed(m, off) && off < |m|
    ensures FirstData(Decode(m, off), code) ==
            if CodeAt(m, off) == code then Some(AvpAt(m, off).data)
            else FirstData(Decode(m, Next(m, off)), code)
  {
    assert Decode(m, off)[0] == AvpAt(m, off);
    assert Decode(m, off)[1..] == Decode(m, Next(m, off));
  }

  // ---------------------------------------------------------- round trip

  /** One encoded AVP, wherever it stands and whatever its padding holds, reads back as
      itself, and the next AVP starts right after its padding. */
  lemma ReadOne(before: seq<Byte>, a: Avp, pad: seq<Byte>, after: seq<Byte>)
    requires Fits(a) && |pad| == Pad(|a.data|)
    ensures var m := before + EncodeWith(a, pad) + after;
            && |before| + AVP_HEADER_LENGTH <= |m|
            && LengthAt(m, |before|) == AVP_HEADER_LENGTH + |a.data|
            && Next(m, |before|) == |before| + |EncodeWith(a, pad)|
            && AvpAt(m, |before|) == a
  {
    var off, n, e := |before|, AVP_HEADER_LENGTH + |a.data|, EncodeWith(a, pad);
    var m := before + e + after;
    PadAligns(|a.data|);
    EncodedFields(a, pad);
    Middle(before, e, after, 0, 4);
    SameOctets(m, off, e, 0, 4);
    Middle(before, e, after, 5, 8);
    SameOctets(m, off + 5, e, 5, 3);
    Middle(before, e, after, AVP_HEADER_LENGTH, n);
  }

  lemma Middle(before: seq<Byte>, e: seq<Byte>, after: seq<Byte>, i: nat, j: nat)
    requires i <= j <= |e|
    ensures (before + e + after)[|before| + i..|before| + j] == e[i..j]
    ensures i < |e| ==> (before + e + after)[|before| + i] == e[i]
    ensures |e| > 4 ==> (before + e + after)[|before| + 4] == e[4]
  {
  }

  lemma EncodedFields(a: Avp, pad: seq<Byte>)
    requires Fits(a)
    ensures var e := EncodeWith(a, pad);
            && ReadBig4(e, 0) == a.code
            && e[4] == a.flags
            && ReadBig3(e, 5) == AVP_HEADER_LENGTH + |a.data|
            && e[AVP_HEADER_LENGTH..AVP_HEADER_LENGTH + |a.data|] == a.data
  {
    var e, n := EncodeWith(a, pad), AVP_HEADER_LENGTH + |a.data|;
    ReadWrite(a.code);
    ReadWrite(n);
    var c, l := Big4(a.code), Big3(n);
    assert e[0..0 + 4] == c[0..0 + 4];
    SameOctets(e, 0, c, 0, 4);
    assert e[5..5 + 3] == l[0..0 + 3];
    SameOctets(e, 5, l, 0, 3);
  }

  /** A list of AVPs decodes to itself, whatever precedes it and whatever is in the places of
      the paddings. */
  lemma {:induction false} DecodeAnyPadding(before: seq<Byte>, avps: seq<Avp>, pads: seq<seq<Byte>>)
    requires (forall i :: 0 <= i < |avps| ==> Fits(avps[i])) && PadsFit(avps, pads)
    ensures WellFormed(before + EncodeAllWith(avps, pads), |before|)
    ensures Decode(before + EncodeAllWith(avps, pads), |before|) == avps
    decreases |avps|
  {
    if avps != [] {
      var e, rest := EncodeWith(avps[0], pads[0]), EncodeAllWith(avps[1..], pads[1..]);
      var m, next := before + EncodeAllWith(avps, pads), |before| + |e|;
      var before' := before + e;
      assert m == before' + rest && |before'| == next;
      DecodeAnyPadding(before', avps[1..], pads[1..]);
      assert WellFormed(m, next);
      assert Decode(m, next) == avps[1..];
      ReadOne(before, avps[0], pads[0], rest);
      DecodeCons(m, |before|, next, avps);
    } else {
      assert before + EncodeAllWith(avps, pads) == before;
    }
  }

  /** Building and reading are inverse: whatever precedes it, an encoded list of AVPs
      is well formed and decodes to itself. */
  lemma DecodeEncode(before: seq<Byte>, avps: seq<Avp>)
    requires forall i :: 0 <= i < |avps| ==> Fits(avps[i])
    ensures WellFormed(before + EncodeAvps(avps), |before|)
    ensures Decode(before + EncodeAvps(avps), |before|) == avps
  {
    PaddingMatters(avps, ZeroPads(avps));
    DecodeAnyPadding(before, avps, ZeroPads(avps));
  }

  /** The octets are those of the encoding proper exactly if all paddings are zero. */
  lemma {:induction false} PaddingMatters(avps: seq<Avp>, pads: seq<seq<Byte>>)
    requires PadsFit(avps, pads)
    ensures EncodeAllWith(avps, pads) == EncodeAvps(avps) <==> AllZero(pads)
    ensures |EncodeAllWith(avps, pads)| == |EncodeAvps(avps)|
    decreases |avps|
  {
    if avps != [] {
      var a, pad := avps[0], pads[0];
      PaddingMatters(avps[1..], pads[1..]);
      SameParts(EncodeWith(a, pad), EncodeAllWith(avps[1..], pads[1..]), EncodeAvp(a), EncodeAvps(avps[1..]));
      SameParts(AvpHeader(a) + a.data, pad, AvpHeader(a) + a.data, Zeros(|pad|));
      assert AllZero(pads) <==> pad == Zeros(|pad|) && AllZero(pads[1..]) by {
        assert forall i :: 1 <= i < |pads| ==> pads[i] == pads[1..][i - 1];
      }
    }
  }

  lemma SameParts(a: seq<Byte>, b: seq<Byte>, c: seq<Byte>, d: seq<Byte>)
    requires |a| == |c|
    ensures a + b == c + d <==> a == c && b == d
  {
    if a + b == c + d {
      assert a == (a + b)[..|a|] && c == (c + d)[..|a|];
      assert b == (a + b)[|a|..] && d == (c + d)[|a|..];
    }
  }

  lemma {:induction false} EncodeWithAppend(xs: seq<Avp>, pads: seq<seq<Byte>>, y: Avp, pad: seq<Byte>)
    requires |pads| == |xs|
    ensures EncodeAllWith(xs + [y], pads + [pad]) == EncodeAllWith(xs, pads) + EncodeWith(y, pad)
    decreases |xs|
  {
    if xs != [] {
      assert (xs + [y])[1..] == xs[1..] + [y] && (pads + [pad])[1..] == pads[1..] + [pad];
      EncodeWithAppend(xs[1..], pads[1..], y, pad);
    } else {
      assert xs + [y] == [y] && pads + [pad] == [pad] && EncodeAllWith([y][1..], [pad][1..]) == [];
    }
  }

  lemma DecodeCons(m: seq<Byte>, off: nat, next: nat, avps: seq<Avp>)
    requires avps != [] && off + AVP_HEADER_LENGTH <= |m| && next == Next(m, off)
    requires AVP_HEADER_LENGTH <= LengthAt(m, off) && off + LengthAt(m, off) <= |m|
    requires AvpAt(m, off) == avps[0]
    requires WellFormed(m, next) && Decode(m, next) == avps[1..]
    ensures WellFormed(m, off) && Decode(m, off) == avps
  {
    assert avps == [avps[0]] + avps[1..];
  }

  lemma {:induction false} EncodeAppend(xs: seq<Avp>, y: Avp)
    ensures EncodeAvps(xs + [y]) == EncodeAvps(xs) + EncodeAvp(y)
  {
    if xs != [] {
      assert (xs + [y])[1..] == xs[1..] + [y];
      EncodeAppend(xs[1..], y);
    } else {
      assert xs + [y] == [y] && EncodeAvps([y][1..]) == [];
    }
  }

  lemma {:induction false} EncodeJoin(xs: seq<Avp>, ys: seq<Avp>)
    ensures EncodeAvps(xs + ys) == EncodeAvps(xs) + EncodeAvps(ys)
    decreases |xs|
  {
    if xs == [] {
      assert xs + ys == ys;
    } else {
      assert (xs + ys)[1..] == xs[1..] + ys;
      EncodeJoin(xs[1..], ys);
    }
  }

  lemma SumAligned(x: nat, y: nat)
    requires x % 4 == 0 && y % 4 == 0
    ensures (x + y) % 4 == 0
  {
  }

  /** Every top-level AVP of an encoded list starts on a four-octet boundary. */
  lemma {:induction false} Aligned(avps: seq<Avp>)
    ensures |EncodeAvps(avps)| % 4 == 0
  {
    if avps != [] {
      Aligned(avps[1..]);
      PadAligns(|avps[0].data|);
      SumAligned(|EncodeAvp(avps[0])|, |EncodeAvps(avps[1..])|);
    }
  }

  /** A message built from AVPs answers every look-up as the list of AVPs does, and a
      grouped AVP in it can be opened with the same reader. */
  lemma LookupBuilt(header: seq<Byte>, avps: seq<Avp>, code: nat)
    requires |header| == HEADER_LENGTH
    requires forall i :: 0 <= i < |avps| ==> Fits(avps[i])
    ensures var m := header + EncodeAvps(avps);
            WellFormed(m, HEADER_LENGTH) && Lookup(m, code) == FirstData(avps, code)
  {
    DecodeEncode(header, avps);
  }

  lemma OpenGroup(code: Word, flags: Byte, children: seq<Avp>)
    requires forall i :: 0 <= i < |children| ==> Fits(children[i])
    ensures WellFormed(Group(code, flags, children).data, 0)
    ensures Decode(Group(code, flags, children).data, 0) == children
  {
    DecodeEncode([], children);
    assert [] + EncodeAvps(children) == EncodeAvps(children);
  }

  // --------------------------------------------------- the message header

  function MessageLength(m: seq<Byte>): (n: nat)
    requires |m| >= 4
  {
    ReadBig3(m, 1)
  }

  function CommandCode(m: seq<Byte>): (n: nat)
    requires |m| >= HEADER_LENGTH
  {
    ReadBig3(m, 5)
  }

  function HopByHop(m: seq<Byte>): (id: Word)
    requires |m| >= HEADER_LENGTH
  {
    ReadLittle4(m, 12)
  }

  function EndToEnd(m: seq<Byte>): (id: Word)
    requires |m| >= HEADER_LENGTH
  {
    ReadLittle4(m, 16)
  }

  function WithHopByHop(m: seq<Byte>, hop: Word): (r: seq<Byte>)
    requires |m| >= HEADER_LENGTH
    ensures |r| == |m|
  {
    m[..12] + Little4(hop) + m[16..]
  }

  function WithIds(m: seq<Byte>, hop: Word, end: Word): (r: seq<Byte>)
    requires |m| >= HEADER_LENGTH
    ensures |r| == |m|
  {
    m[..12] + Little4(hop) + Little4(end) + m[20..]
  }

  /** Replacing the identifiers changes them and no other octet. */
  lemma IdsReplaced(m: seq<Byte>, hop: Word, end: Word)
    requires |m| >= HEADER_LENGTH
    ensures HopByHop(WithIds(m, hop, end)) == hop && EndToEnd(WithIds(m, hop, end)) == end
    ensures HopByHop(WithHopByHop(m, hop)) == hop && EndToEnd(WithHopByHop(m, hop)) == EndToEnd(m)
    ensures forall i :: 0 <= i < |m| && !(12 <= i < 20) ==> WithIds(m, hop, end)[i] == m[i]
    ensures forall i :: 0 <= i < |m| && !(12 <= i < 16) ==> WithHopByHop(m, hop)[i] == m[i]
  {
    ReadWrite(hop);
    ReadWrite(end);
  }

  /** Restoring the identifiers a message had gives the message back (sections 6.1.9
      and 6.2.2 of RFC 6733: save and replace, then restore). */
  lemma IdsRestored(m: seq<Byte>, hop: Word, end: Word)
    requires |m| >= HEADER_LENGTH
    ensures WithIds(WithIds(m, hop, end), HopByHop(m), EndToEnd(m)) == m
  {
    IdsOverwritten(m, hop, end, HopByHop(m), EndToEnd(m));
    var h, e := m[12..16], m[16..20];
    WriteRead(h);
    WriteRead(e);
    assert ReadLittle4(h, 0) == HopByHop(m) && ReadLittle4(e, 0) == EndToEnd(m);
    assert m == m[..12] + h + e + m[20..];
  }

  lemma IdsOverwritten(m: seq<Byte>, hop: Word, end: Word, hop': Word, end': Word)
    requires |m| >= HEADER_LENGTH
    ensures WithIds(WithIds(m, hop, end), hop', end') == WithIds(m, hop', end')
  {
    var w := WithIds(m, hop, end);
    assert w[..12] == m[..12] && w[20..] == m[20..];
  }
}
