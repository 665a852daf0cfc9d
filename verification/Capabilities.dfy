/** The messages the proxy builds for itself: the Capabilities-Exchange-Request and the
    Disconnect-Peer-Request (`createCER`, `createDPR` in DiaProxy/source/DiaThread.cpp). */
module Capabilities {
  import opened Octets
  import opened Codec
  import opened Builder

  const DISCONNECTCAUSE_CODE: nat := 273
  const MANDATORY: Byte := 0x40
  const TEXT_SIZE: nat := 200          // origin_host[200], origin_realm[200], product_name[200]
  const LIST_SIZE: nat := 10           // list_of_...[10], pairs in [20]
  const DEFAULT_FIRMWARE_REVISION: nat := 1

  /** The configuration used. Texts are the character arrays with their terminator;
      `address` is the configured host address, `resolved` what the resolver would find. */
  datatype Config = Config(originHost: seq<Byte>, originRealm: seq<Byte>, productName: seq<Byte>,
                           address: seq<Byte>, resolved: Option<seq<Byte>>,
                           vendorId: seq<Byte>, supportedVendors: seq<nat>,
                           authApplications: seq<nat>, vendorApplications: seq<(nat, nat)>)

  predicate IsText(t: seq<Byte>)
  {
    |t| == TEXT_SIZE && t[TEXT_SIZE - 1] == 0
  }

  predicate IsNumber(n: nat)
  {
    n < 0x8000_0000
  }

  predicate ValidConfig(c: Config)
  {
    && IsText(c.originHost) && IsText(c.originRealm) && IsText(c.productName)
    && |c.address| in {4, 16} && (c.resolved.Some? ==> |c.resolved.value| == 4) && |c.vendorId| == 4
    && |c.supportedVendors| <= LIST_SIZE && (forall n :: n in c.supportedVendors ==> IsNumber(n))
    && |c.authApplications| <= LIST_SIZE && (forall n :: n in c.authApplications ==> IsNumber(n))
    && |c.vendorApplications| <= LIST_SIZE
    && (forall p :: p in c.vendorApplications ==> IsNumber(p.0) && IsNumber(p.1))
  }

  // ---------------------------------------------------------- what is built

  function TextAvp(stored: Word, flags: Byte, text: seq<Byte>): (a: Avp)
    requires IsText(text)
  {
    Avp(WireCode(stored), flags, TextData(text))
  }

  function NumberAvp(stored: Word, flags: Byte, n: nat): (a: Avp)
  {
    Avp(WireCode(stored), flags, Big4(n))
  }

  function NumberAvps(stored: Word, ns: seq<nat>): (avps: seq<Avp>)
  {
    if ns == [] then [] else NumberAvps(stored, ns[..|ns| - 1]) + [NumberAvp(stored, MANDATORY, ns[|ns| - 1])]
  }

  function VendorApplication(p: (nat, nat)): (a: Avp)
  {
    Group(WireCode(VENDOR_SPECIFIC_APPLICATION_ID), MANDATORY,
          [NumberAvp(VENDOR_ID, MANDATORY, p.0), NumberAvp(AUTH_APPLICATION_ID, MANDATORY, p.1)])
  }

  function VendorApplications(ps: seq<(nat, nat)>): (avps: seq<Avp>)
  {
    if ps == [] then [] else VendorApplications(ps[..|ps| - 1]) + [VendorApplication(ps[|ps| - 1])]
  }

  /** The host address with its family in front: 1 for IPv4, 2 for IPv6. */
  function AddressData(c: Config): (d: seq<Byte>)
    requires ValidConfig(c)
  {
    if |c.address| == 16 then [0, 2] + c.address else [0, 1] + HostAddress(c.address, c.resolved)
  }

  function CerStart(c: Config): (avps: seq<Avp>)
    requires ValidConfig(c)
  {
    [TextAvp(ORIGIN_HOST, MANDATORY, c.originHost), TextAvp(ORIGIN_REALM, MANDATORY, c.originRealm),
     Avp(WireCode(HOST_IP_ADDRESS), MANDATORY, AddressData(c)),
     Avp(WireCode(VENDOR_ID), MANDATORY, c.vendorId), TextAvp(PRODUCT_NAME, 0, c.productName)]
  }

  function CerAvps(c: Config): (avps: seq<Avp>)
    requires ValidConfig(c)
  {
    CerStart(c)
    + NumberAvps(SUPPORTED_VENDOR_ID, c.supportedVendors)
    + NumberAvps(AUTH_APPLICATION_ID, c.authApplications)
    + VendorApplications(c.vendorApplications)
    + [NumberAvp(FIRMWARE_REVISION, 0, DEFAULT_FIRMWARE_REVISION)]
  }

  function DprAvps(c: Config): (avps: seq<Avp>)
    requires ValidConfig(c)
  {
    [TextAvp(ORIGIN_HOST, MANDATORY, c.originHost), TextAvp(ORIGIN_REALM, MANDATORY, c.originRealm),
     NumberAvp(DISCONNECT_CAUSE, MANDATORY, 2)]
  }

  function RequestHead(c1: Byte, c2: Byte, hop: Word, end: Word): (h: seq<Byte>)
    ensures |h| == HEADER_LENGTH
  {
    [1, 0, 0, 0, 0x80, 0, c1, c2, 0, 0, 0, 0] + Little4(hop) + Little4(end)
  }

  // --------------------------------------- what the peers are to read in them

  /** The characters before the first terminator, or eight octets if those are fewer than four. */
  predicate HoldsText(data: seq<Byte>, text: seq<Byte>)
    requires IsText(text)
  {
    exists n :: 0 <= n < 200 && text[n] == 0 && (forall i :: 0 <= i < n ==> text[i] != 0)
                && data == if n < 4 then text[..8] else text[..n]
  }

  /** An IPv6 address as it is; an IPv4 address too, unless its octets add up to 256 for each
      high one, in which case the host's own is taken, or 10.1.20.89 if there is none. */
  predicate HoldsAddress(data: seq<Byte>, c: Config)
    requires ValidConfig(c)
  {
    var a := c.address;
    var w: nat, x: nat, y: nat, z: nat := a[0], a[1], a[2], a[3];
    if |a| == 16 then data == [0, 2] + a
    else if w + x + y + z != 256 * (High(a[0]) + High(a[1]) + High(a[2]) + High(a[3])) then data == [0, 1] + a
    else data == [0, 1] + match c.resolved case Some(own) => own case None => [10, 1, 20, 89]
  }

  predicate AreNumbers(avps: seq<Avp>, code: Word, ns: seq<nat>)
  {
    |avps| == |ns| && forall k :: 0 <= k < |ns| ==> avps[k] == Avp(code, 0x40, Big4(ns[k]))
  }

  /** A Vendor-Specific-Application-Id: Vendor-Id and Auth-Application-Id. */
  predicate IsApplication(avp: Avp, vendor: nat, application: nat)
  {
    && avp.code == 260 && avp.flags == 0x40 && WellFormed(avp.data, 0)
    && Decode(avp.data, 0) == [Avp(266, 0x40, Big4(vendor)), Avp(258, 0x40, Big4(application))]
  }

  predicate AreApplications(avps: seq<Avp>, ps: seq<(nat, nat)>)
  {
    |avps| == |ps| && forall k :: 0 <= k < |ps| ==> IsApplication(avps[k], ps[k].0, ps[k].1)
  }

  /** Origin-Host, Origin-Realm, Host-IP-Address, Vendor-Id and Product-Name. */
  predicate IsStartFor(avps: seq<Avp>, c: Config)
    requires ValidConfig(c)
  {
    && |avps| == 5
    && (avps[0].code, avps[0].flags) == (264, 0x40) && HoldsText(avps[0].data, c.originHost)
    && (avps[1].code, avps[1].flags) == (296, 0x40) && HoldsText(avps[1].data, c.originRealm)
    && (avps[2].code, avps[2].flags) == (257, 0x40) && HoldsAddress(avps[2].data, c)
    && avps[3] == Avp(266, 0x40, c.vendorId)
    && (avps[4].code, avps[4].flags) == (269, 0) && HoldsText(avps[4].data, c.productName)
  }

  /** The Capabilities-Exchange-Request for a configuration: behind the start Supported-Vendor-Id,
      Auth-Application-Id and Vendor-Specific-Application-Id in the order of the configuration,
      and the Firmware-Revision. */
  predicate IsCerFor(avps: seq<Avp>, c: Config)
    requires ValidConfig(c)
  {
    var i := 5 + |c.supportedVendors|;
    var j := i + |c.authApplications|;
    var k := j + |c.vendorApplications|;
    && |avps| == k + 1
    && IsStartFor(avps[..5], c)
    && AreNumbers(avps[5..i], 265, c.supportedVendors)
    && AreNumbers(avps[i..j], 258, c.authApplications)
    && AreApplications(avps[j..k], c.vendorApplications)
    && avps[k] == Avp(267, 0, [0, 0, 0, 1])
  }

  predicate IsDprFor(avps: seq<Avp>, c: Config)
    requires ValidConfig(c)
  {
    && |avps| == 3
    && (avps[0].code, avps[0].flags) == (264, 0x40) && HoldsText(avps[0].data, c.originHost)
    && (avps[1].code, avps[1].flags) == (296, 0x40) && HoldsText(avps[1].data, c.originRealm)
    && avps[2] == Avp(273, 0x40, [0, 0, 0, 2])
  }

  /** Version 1, the request bit alone, application 0 and the two identifiers. */
  predicate IsRequestHeader(m: seq<Byte>, command: nat, hop: Word, end: Word)
  {
    && |m| >= HEADER_LENGTH && m[0] == 1 && MessageLength(m) == |m| && m[4] == 0x80
    && CommandCode(m) == command && m[8] == m[9] == m[10] == m[11] == 0
    && HopByHop(m) == hop && EndToEnd(m) == end
  }

  lemma TextHeld(text: seq<Byte>)
    requires IsText(text)
    ensures HoldsText(TextData(text), text)
  {
    assert text[TEXT_SIZE - 1] == 0;
    var n := StrLen(text);
    assert 0 <= n < 200 && text[n] == 0 && (forall i :: 0 <= i < n ==> text[i] != 0)
           && TextData(text) == if n < 4 then text[..8] else text[..n];
  }

  lemma AddressHeld(c: Config)
    requires ValidConfig(c)
    ensures HoldsAddress(AddressData(c), c)
  {
    var a := c.address;
    if |a| == 4 {
      LooksVoid(a[0], a[1], a[2], a[3]);
      assert a == [a[0], a[1], a[2], a[3]];
    }
  }

  lemma {:induction false} NumbersHeld(stored: Word, code: Word, ns: seq<nat>)
    requires WireCode(stored) == code
    ensures AreNumbers(NumberAvps(stored, ns), code, ns)
    decreases |ns|
  {
    if ns != [] {
      NumbersHeld(stored, code, ns[..|ns| - 1]);
    }
  }

  lemma VendorsHeld(ns: seq<nat>)
    ensures AreNumbers(NumberAvps(SUPPORTED_VENDOR_ID, ns), 265, ns)
  {
    WireCodeOf(9);
    NumbersHeld(SUPPORTED_VENDOR_ID, 265, ns);
  }

  lemma AuthsHeld(ns: seq<nat>)
    ensures AreNumbers(NumberAvps(AUTH_APPLICATION_ID, ns), 258, ns)
  {
    WireCodeOf(2);
    NumbersHeld(AUTH_APPLICATION_ID, 258, ns);
  }

  lemma RevisionHeld()
    ensures NumberAvp(FIRMWARE_REVISION, 0, DEFAULT_FIRMWARE_REVISION) == Avp(267, 0, [0, 0, 0, 1])
  {
    WireCodeOf(0xb);
  }

  lemma ApplicationHeld(p: (nat, nat))
    ensures IsApplication(VendorApplication(p), p.0, p.1)
  {
    WireCodeOf(4);
    WireCodeOf(0xa);
    WireCodeOf(2);
    var vendor, application := Avp(266, 0x40, Big4(p.0)), Avp(258, 0x40, Big4(p.1));
    OpenGroup(260, 0x40, [vendor, application]);
  }

  lemma {:induction false} ApplicationsHeld(ps: seq<(nat, nat)>)
    ensures AreApplications(VendorApplications(ps), ps)
    decreases |ps|
  {
    if ps != [] {
      ApplicationHeld(ps[|ps| - 1]);
      ApplicationsHeld(ps[..|ps| - 1]);
    }
  }

  lemma StartHeld(c: Config)
    requires ValidConfig(c)
    ensures IsStartFor(CerStart(c), c)
  {
    TextHeld(c.originHost);
    TextHeld(c.originRealm);
    TextHeld(c.productName);
    AddressHeld(c);
    WireCodeOf(8);
    WireCodeOf(0x28);
    WireCodeOf(1);
    WireCodeOf(0xa);
    WireCodeOf(0xd);
  }

  lemma Assembled(c: Config, start: seq<Avp>, vendors: seq<Avp>, auths: seq<Avp>, pairs: seq<Avp>, last: Avp)
    requires ValidConfig(c) && |start| == 5 && IsStartFor(start, c)
    requires AreNumbers(vendors, 265, c.supportedVendors) && AreNumbers(auths, 258, c.authApplications)
    requires AreApplications(pairs, c.vendorApplications) && last == Avp(267, 0, [0, 0, 0, 1])
    ensures IsCerFor(start + vendors + auths + pairs + [last], c)
  {
    var all := start + vendors + auths + pairs + [last];
    var i := 5 + |vendors|;
    var j := i + |auths|;
    assert all[..5] == start;
    assert all[5..i] == vendors;
    assert all[i..j] == auths;
    assert all[j..j + |pairs|] == pairs;
  }

  /** The list the builder makes is the one meant for the configuration. */
  lemma CerIsForConfig(c: Config)
    requires ValidConfig(c)
    ensures IsCerFor(CerAvps(c), c)
  {
    var start, vendors := CerStart(c), NumberAvps(SUPPORTED_VENDOR_ID, c.supportedVendors);
    var auths, pairs := NumberAvps(AUTH_APPLICATION_ID, c.authApplications), VendorApplications(c.vendorApplications);
    var last := NumberAvp(FIRMWARE_REVISION, 0, DEFAULT_FIRMWARE_REVISION);
    StartHeld(c);
    VendorsHeld(c.supportedVendors);
    AuthsHeld(c.authApplications);
    ApplicationsHeld(c.vendorApplications);
    RevisionHeld();
    Assembled(c, start, vendors, auths, pairs, last);
  }

  lemma DprIsForConfig(c: Config)
    requires ValidConfig(c)
    ensures IsDprFor(DprAvps(c), c)
  {
    TextHeld(c.originHost);
    TextHeld(c.originRealm);
    WireCodeOf(8);
    WireCodeOf(0x28);
    WireCodeOf(0x11);
  }

  // ------------------------------------------------------------ the builders

  method AddText(m: DiaMessage, stored: Word, flags: Byte, text: seq<Byte>)
    requires m.Valid() && IsText(text) && m.dataPointer + 211 <= BUFFER_SIZE
    modifies m, m.buffer
    ensures m.Valid() && m.head == old(m.head)
    ensures m.avps == old(m.avps) + [TextAvp(stored, flags, text)]
    ensures m.dataPointer <= old(m.dataPointer) + 211
  {
    assert text[TEXT_SIZE - 1] == 0;
    var avp := new AvpObject.Text(stored, flags, text);
    assert |avp.Value().data| < TEXT_SIZE;
    m.AddAvp(avp);
  }

  method AddRaw(m: DiaMessage, stored: Word, flags: Byte, data: seq<Byte>)
    requires m.Valid() && |data| <= 20 && m.dataPointer + 31 <= BUFFER_SIZE
    modifies m, m.buffer
    ensures m.Valid() && m.head == old(m.head)
    ensures m.avps == old(m.avps) + [Avp(WireCode(stored), flags, data)]
    ensures m.dataPointer <= old(m.dataPointer) + 31
  {
    var avp := new AvpObject.Raw(stored, flags, |data|, data);
    assert data[..|data|] == data;
    m.AddAvp(avp);
  }

  method AddAddress(m: DiaMessage, c: Config)
    requires m.Valid() && ValidConfig(c) && m.dataPointer + 31 <= BUFFER_SIZE
    modifies m, m.buffer
    ensures m.Valid() && m.head == old(m.head)
    ensures m.avps == old(m.avps) + [Avp(WireCode(HOST_IP_ADDRESS), MANDATORY, AddressData(c))]
    ensures m.dataPointer <= old(m.dataPointer) + 31
  {
    var avp := AddressObject(c);
    m.AddAvp(avp);
  }

  method AddressObject(c: Config) returns (avp: AvpObject)
    requires ValidConfig(c)
    ensures fresh(avp) && fresh(avp.dataHead) && avp.Valid() && avp.Complete() && avp.totalLength <= 31
    ensures avp.Value() == Avp(WireCode(HOST_IP_ADDRESS), MANDATORY, AddressData(c))
  {
    if |c.address| == 16 {
      avp := new AvpObject.Address6(HOST_IP_ADDRESS, MANDATORY, c.address);
    } else {
      avp := new AvpObject.Address4(HOST_IP_ADDRESS, MANDATORY, c.address, c.resolved);
    }
    assert avp.dataLength == |avp.Value().data| <= 18;
  }

  method HexOf(n: nat) returns (hex: seq<Byte>)
    requires IsNumber(n)
    ensures hex == Big4(n)
  {
    var buff := new Byte[4];
    IntToHex(buff, n, 4);
    FourOctets(n);
    hex := buff[..];
  }

  method AddNumbers(m: DiaMessage, stored: Word, ns: seq<nat>)
    requires m.Valid() && |ns| <= LIST_SIZE && (forall n :: n in ns ==> IsNumber(n))
    requires m.dataPointer + 31 * LIST_SIZE <= BUFFER_SIZE
    modifies m, m.buffer
    ensures m.Valid() && m.head == old(m.head)
    ensures m.avps == old(m.avps) + NumberAvps(stored, ns)
    ensures m.dataPointer <= old(m.dataPointer) + 31 * LIST_SIZE
  {
    var index := 0;
    while index != |ns|
      invariant 0 <= index <= |ns|
      invariant m.Valid() && m.head == old(m.head)
      invariant m.avps == old(m.avps) + NumberAvps(stored, ns[..index])
      invariant m.dataPointer <= old(m.dataPointer) + 31 * index
      decreases |ns| - index
    {
      var hex := HexOf(ns[index]);
      AddRaw(m, stored, MANDATORY, hex);
      assert ns[..index + 1][..index] == ns[..index];
      index := index + 1;
    }
    assert ns[..index] == ns;
  }

  method AddGroup(m: DiaMessage, p: (nat, nat))
    requires m.Valid() && IsNumber(p.0) && IsNumber(p.1)
    requires m.dataPointer + 32 <= BUFFER_SIZE
    modifies m, m.buffer
    ensures m.Valid() && m.head == old(m.head)
    ensures m.avps == old(m.avps) + [VendorApplication(p)]
    ensures m.dataPointer == old(m.dataPointer) + 32
  {
    var parent := MakeApplication(p);
    m.AddAvp(parent);
  }

  /** Two children of twelve octets each, which need no padding. */
  method MakeApplication(p: (nat, nat)) returns (parent: AvpObject)
    requires IsNumber(p.0) && IsNumber(p.1)
    ensures fresh(parent) && fresh(parent.dataHead) && parent.Valid() && parent.Complete()
    ensures parent.Value() == VendorApplication(p) && parent.dataLength == 24
  {
    GroupLength(p);
    var sub1 := NumberObject(VENDOR_ID, p.0);
    var sub2 := NumberObject(AUTH_APPLICATION_ID, p.1);
    ghost var values := [NumberAvp(VENDOR_ID, MANDATORY, p.0), NumberAvp(AUTH_APPLICATION_ID, MANDATORY, p.1)];
    parent := MakePlainGroup(VENDOR_SPECIFIC_APPLICATION_ID, MANDATORY, [sub1, sub2], values);
  }

  /** A group of children that need no padding. */
  method MakePlainGroup(code: Word, flags: Byte, children: seq<AvpObject>, ghost values: seq<Avp>)
    returns (parent: AvpObject)
    requires AreComplete(children, values)
    requires forall i :: 0 <= i < |values| ==> |values[i].data| == 4
    ensures fresh(parent) && fresh(parent.dataHead) && parent.Valid() && parent.Complete()
    ensures parent.Value() == Group(WireCode(code), flags, values)
    ensures parent.dataLength == |EncodeAvps(values)|
  {
    ghost var pads;
    parent, pads := MakeGroup(code, flags, children, values);
    assert AllZero(pads) by {
      assert forall i :: 0 <= i < |pads| ==> |pads[i]| == Pad(|values[i].data|) == 0;
    }
  }

  method NumberObject(stored: Word, n: nat) returns (o: AvpObject)
    requires IsNumber(n)
    ensures fresh(o) && fresh(o.dataHead) && o.Valid() && o.Complete()
    ensures o.dataLength == 4 && o.totalLength == 12
    ensures o.Value() == NumberAvp(stored, MANDATORY, n)
  {
    var hex := HexOf(n);
    o := new AvpObject.Raw(stored, MANDATORY, 4, hex);
    assert hex[..4] == hex;
  }

  lemma EncodePair(a: Avp, b: Avp)
    ensures EncodeAvps([a, b]) == EncodeAvp(a) + EncodeAvp(b)
  {
    EncodeAppend([a], b);
    EncodeAppend([], a);
    assert [] + [a] == [a] && [a] + [b] == [a, b];
  }

  method AddGroups(m: DiaMessage, ps: seq<(nat, nat)>)
    requires m.Valid() && |ps| <= LIST_SIZE && (forall p :: p in ps ==> IsNumber(p.0) && IsNumber(p.1))
    requires m.dataPointer + 32 * LIST_SIZE <= BUFFER_SIZE
    modifies m, m.buffer
    ensures m.Valid() && m.head == old(m.head)
    ensures m.avps == old(m.avps) + VendorApplications(ps)
    ensures m.dataPointer <= old(m.dataPointer) + 32 * LIST_SIZE
  {
    var index := 0;
    ghost var base, start := m.avps, m.dataPointer;
    assert base + VendorApplications(ps[..0]) == base;
    while index < |ps|
      invariant 0 <= index <= |ps|
      invariant m.Valid() && m.head == old(m.head)
      invariant m.avps == base + VendorApplications(ps[..index])
      invariant m.dataPointer == start + 32 * index
    {
      ghost var done := VendorApplications(ps[..index]);
      ApplicationsStep(ps, index);
      AddGroup(m, ps[index]);
      assert (base + done) + [VendorApplication(ps[index])] == base + (done + [VendorApplication(ps[index])]);
      index := index + 1;
    }
    assert ps[..index] == ps;
  }

  lemma ApplicationsStep(ps: seq<(nat, nat)>, i: nat)
    requires i < |ps|
    ensures VendorApplications(ps[..i + 1]) == VendorApplications(ps[..i]) + [VendorApplication(ps[i])]
    ensures ps[i] in ps
  {
    assert ps[..i + 1][..i] == ps[..i];
  }

  method AddLists(m: DiaMessage, c: Config)
    requires ValidConfig(c) && m.Valid() && m.dataPointer <= 1000
    modifies m, m.buffer
    ensures m.Valid() && m.head == old(m.head) && m.dataPointer <= 3000
    ensures m.avps == old(m.avps) + NumberAvps(SUPPORTED_VENDOR_ID, c.supportedVendors)
                      + NumberAvps(AUTH_APPLICATION_ID, c.authApplications)
                      + VendorApplications(c.vendorApplications)
  {
    AddNumbers(m, SUPPORTED_VENDOR_ID, c.supportedVendors);
    AddNumbers(m, AUTH_APPLICATION_ID, c.authApplications);
    AddGroups(m, c.vendorApplications);
  }

  method AddStart(m: DiaMessage, c: Config)
    requires ValidConfig(c) && m.Valid() && m.avps == [] && m.dataPointer == HEADER_LENGTH
    modifies m, m.buffer
    ensures m.Valid() && m.head == old(m.head)
    ensures m.avps == CerStart(c) && m.dataPointer <= 1000
  {
    AddText(m, ORIGIN_HOST, MANDATORY, c.originHost);
    AddText(m, ORIGIN_REALM, MANDATORY, c.originRealm);
    AddAddress(m, c);
    AddRaw(m, VENDOR_ID, MANDATORY, c.vendorId);
    AddText(m, PRODUCT_NAME, 0, c.productName);
  }

  /** `createCER`. */
  method CreateCer(cermsg: array<Byte>, c: Config, hop: Word, end: Word) returns (size: nat)
    requires ValidConfig(c) && cermsg.Length == BUFFER_SIZE
    modifies cermsg
    ensures HEADER_LENGTH <= size <= BUFFER_SIZE
    ensures cermsg[..size] == Sized(RequestHead(1, 1, hop, end), size) + EncodeAvps(CerAvps(c))
    ensures IsRequestHeader(cermsg[..size], 257, hop, end)
    ensures WellFormed(cermsg[..size], HEADER_LENGTH) && IsCerFor(Decode(cermsg[..size], HEADER_LENGTH), c)
  {
    var m := BuildCer(c, hop, end);
    size := m.Message(cermsg);
    CerReadsBack(c, hop, end, size);
  }

  method BuildCer(c: Config, hop: Word, end: Word) returns (m: DiaMessage)
    requires ValidConfig(c)
    ensures fresh(m) && fresh(m.buffer) && m.Valid()
    ensures m.head == RequestHead(1, 1, hop, end) && m.avps == CerAvps(c)
  {
    m := new DiaMessage(hop, end);
    m.SetCmdCode(1, 1);
    assert m.head == RequestHead(1, 1, hop, end);
    AddStart(m, c);
    AddLists(m, c);
    var hex := HexOf(DEFAULT_FIRMWARE_REVISION);
    AddRaw(m, FIRMWARE_REVISION, 0, hex);
    assert m.avps == CerAvps(c);
  }

  /** `createDPR`. */
  method CreateDpr(dprmsg: array<Byte>, c: Config, hop: Word, end: Word) returns (size: nat)
    requires ValidConfig(c) && dprmsg.Length == BUFFER_SIZE
    modifies dprmsg
    ensures HEADER_LENGTH <= size <= BUFFER_SIZE
    ensures dprmsg[..size] == Sized(RequestHead(1, 0x1a, hop, end), size) + EncodeAvps(DprAvps(c))
    ensures IsRequestHeader(dprmsg[..size], 282, hop, end)
    ensures WellFormed(dprmsg[..size], HEADER_LENGTH) && IsDprFor(Decode(dprmsg[..size], HEADER_LENGTH), c)
  {
    var m := new DiaMessage(hop, end);
    m.SetCmdCode(1, 0x1a);
    assert m.head == RequestHead(1, 0x1a, hop, end);
    AddText(m, ORIGIN_HOST, MANDATORY, c.originHost);
    AddText(m, ORIGIN_REALM, MANDATORY, c.originRealm);
    var hex := HexOf(2);
    AddRaw(m, DISCONNECT_CAUSE, MANDATORY, hex);
    assert m.avps == DprAvps(c);
    size := m.Message(dprmsg);
    DprReadsBack(c, hop, end, size);
  }

  // ---------------------------------------------------------- and read back

  lemma {:induction false} NumbersFit(stored: Word, ns: seq<nat>)
    ensures forall i :: 0 <= i < |NumberAvps(stored, ns)| ==> Fits(NumberAvps(stored, ns)[i])
  {
    if ns != [] {
      NumbersFit(stored, ns[..|ns| - 1]);
    }
  }

  lemma {:induction false} ApplicationsFit(ps: seq<(nat, nat)>)
    ensures forall i :: 0 <= i < |VendorApplications(ps)| ==> Fits(VendorApplications(ps)[i])
  {
    if ps != [] {
      ApplicationsFit(ps[..|ps| - 1]);
      GroupLength(ps[|ps| - 1]);
    }
  }

  lemma GroupLength(p: (nat, nat))
    ensures |VendorApplication(p).data| == 24
  {
    var v, a := NumberAvp(VENDOR_ID, MANDATORY, p.0), NumberAvp(AUTH_APPLICATION_ID, MANDATORY, p.1);
    EncodePair(v, a);
  }

  lemma CerFits(c: Config)
    requires ValidConfig(c)
    ensures forall i :: 0 <= i < |CerAvps(c)| ==> Fits(CerAvps(c)[i])
  {
    NumbersFit(SUPPORTED_VENDOR_ID, c.supportedVendors);
    NumbersFit(AUTH_APPLICATION_ID, c.authApplications);
    ApplicationsFit(c.vendorApplications);
  }

  lemma HeadReadsBack(c2: Byte, hop: Word, end: Word, size: nat, body: seq<Byte>)
    requires size == HEADER_LENGTH + |body| <= BUFFER_SIZE
    ensures var m := Sized(RequestHead(1, c2, hop, end), size) + body;
            |m| == size && IsRequestHeader(m, 256 + c2, hop, end)
  {
    var head := RequestHead(1, c2, hop, end);
    SizedLength(head, size, body);
    var m := Sized(head, size) + body;
    assert m[0] == 1 && m[4] == 0x80 && m[8] == m[9] == m[10] == m[11] == 0;
    assert m[12..12 + 4] == Little4(hop)[0..0 + 4];
    assert m[16..16 + 4] == Little4(end)[0..0 + 4];
    SameOctets(m, 12, Little4(hop), 0, 4);
    SameOctets(m, 16, Little4(end), 0, 4);
    ReadWrite(hop);
    ReadWrite(end);
  }

  lemma CerNames(c: Config)
    requires ValidConfig(c)
    ensures FirstData(CerAvps(c), ORIGINHOST_CODE) == Some(TextData(c.originHost))
    ensures FirstData(CerAvps(c), ORIGINREALM_CODE) == Some(TextData(c.originRealm))
  {
    var avps := CerAvps(c);
    WireCodeOf(8);
    WireCodeOf(0x28);
    assert avps[0] == TextAvp(ORIGIN_HOST, MANDATORY, c.originHost);
    assert avps[1] == TextAvp(ORIGIN_REALM, MANDATORY, c.originRealm);
    FirstDataAt(avps, 0);
    FirstDataAt(avps, 1);
  }

  /** The request built for any configuration reads back as one for it: the header, and the
      AVPs one by one; `extractAVP` finds the configured Origin-Host and Origin-Realm in it. */
  lemma CerReadsBack(c: Config, hop: Word, end: Word, size: nat)
    requires ValidConfig(c) && size == HEADER_LENGTH + |EncodeAvps(CerAvps(c))| <= BUFFER_SIZE
    ensures var m := Sized(RequestHead(1, 1, hop, end), size) + EncodeAvps(CerAvps(c));
            && |m| == size && IsRequestHeader(m, 257, hop, end)
            && WellFormed(m, HEADER_LENGTH) && IsCerFor(Decode(m, HEADER_LENGTH), c)
            && Lookup(m, ORIGINHOST_CODE) == Some(TextData(c.originHost))
            && Lookup(m, ORIGINREALM_CODE) == Some(TextData(c.originRealm))
  {
    var h, avps := Sized(RequestHead(1, 1, hop, end), size), CerAvps(c);
    HeadReadsBack(1, hop, end, size, EncodeAvps(avps));
    CerFits(c);
    DecodeEncode(h, avps);
    CerNames(c);
    CerIsForConfig(c);
  }

  lemma DprReadsBack(c: Config, hop: Word, end: Word, size: nat)
    requires ValidConfig(c) && size == HEADER_LENGTH + |EncodeAvps(DprAvps(c))| <= BUFFER_SIZE
    ensures var m := Sized(RequestHead(1, 0x1a, hop, end), size) + EncodeAvps(DprAvps(c));
            && |m| == size && IsRequestHeader(m, 282, hop, end)
            && WellFormed(m, HEADER_LENGTH) && IsDprFor(Decode(m, HEADER_LENGTH), c)
            && Lookup(m, ORIGINHOST_CODE) == Some(TextData(c.originHost))
            && Lookup(m, DISCONNECTCAUSE_CODE) == Some([0, 0, 0, 2])
  {
    var h, avps := Sized(RequestHead(1, 0x1a, hop, end), size), DprAvps(c);
    HeadReadsBack(0x1a, hop, end, size, EncodeAvps(avps));
    DecodeEncode(h, avps);
    DprNames(c);
    DprIsForConfig(c);
  }

  lemma DprNames(c: Config)
    requires ValidConfig(c)
    ensures FirstData(DprAvps(c), ORIGINHOST_CODE) == Some(TextData(c.originHost))
    ensures FirstData(DprAvps(c), DISCONNECTCAUSE_CODE) == Some([0, 0, 0, 2])
  {
    var avps := DprAvps(c);
    WireCodeOf(8);
    WireCodeOf(0x28);
    WireCodeOf(0x11);
    FirstDataAt(avps, 0);
    FirstDataAt(avps, 2);
  }
}
