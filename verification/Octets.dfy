/** Octets, the words they make up, and the conversions of DiaProxy/source/Utils.cpp.

    Diameter fields are big-endian on the wire. The proxy also reads and writes
    some of them through C structures on a little-endian machine (`hop2hop`,
    `end2end`, `avp_code`, `value`), so both orders are modelled. */
module Octets {

  type Byte = n: nat | n < 256
  type Word = n: nat | n < 0x1_0000_0000

  datatype Option<+T> = None | Some(value: T)

  function Big3(n: nat): (b: seq<Byte>)
    ensures |b| == 3
  {
    [n / 0x1_0000 % 256, n / 256 % 256, n % 256]
  }

  function Big4(n: nat): (b: seq<Byte>)
    ensures |b| == 4
  {
    [n / 0x100_0000 % 256, n / 0x1_0000 % 256, n / 256 % 256, n % 256]
  }

  function Little4(n: nat): (b: seq<Byte>)
    ensures |b| == 4
  {
    [n % 256, n / 256 % 256, n / 0x1_0000 % 256, n / 0x100_0000 % 256]
  }

  function ReadBig3(b: seq<Byte>, at: nat): (n: nat)
    requires at + 3 <= |b|
    ensures n < 0x100_0000
  {
    var x: nat, y: nat, z: nat := b[at], b[at + 1], b[at + 2];
    x * 0x1_0000 + y * 256 + z
  }

  function ReadBig4(b: seq<Byte>, at: nat): (n: Word)
    requires at + 4 <= |b|
  {
    var w: nat, x: nat, y: nat, z: nat := b[at], b[at + 1], b[at + 2], b[at + 3];
    w * 0x100_0000 + x * 0x1_0000 + y * 256 + z
  }

  function ReadLittle4(b: seq<Byte>, at: nat): (n: Word)
    requires at + 4 <= |b|
  {
    var w: nat, x: nat, y: nat, z: nat := b[at], b[at + 1], b[at + 2], b[at + 3];
    w + x * 256 + y * 0x1_0000 + z * 0x100_0000
  }

  /** Reading undoes writing, for each layout. */
  lemma ReadWrite(n: Word)
    ensures ReadBig4(Big4(n), 0) == n
    ensures ReadLittle4(Little4(n), 0) == n
    ensures n < 0x100_0000 ==> ReadBig3(Big3(n), 0) == n
  {
    var hi, lo := n / 0x1_0000, n % 0x1_0000;
    assert n / 0x100_0000 == hi / 256 && n / 256 % 256 == lo / 256 && n % 256 == lo % 256;
  }

  /** Writing undoes reading: four octets and the word they hold determine each other. */
  lemma WriteRead(b: seq<Byte>)
    requires |b| == 4
    ensures Little4(ReadLittle4(b, 0)) == b
    ensures Big4(ReadBig4(b, 0)) == b
  {
    Digits(b[0], b[1], b[2], b[3]);
    Digits(b[3], b[2], b[1], b[0]);
  }

  /** Base-256 digits are unique. */
  lemma Digits(a: nat, b: nat, c: nat, d: nat)
    requires a < 256 && b < 256 && c < 256 && d < 256
    ensures var n := a + b * 256 + c * 0x1_0000 + d * 0x100_0000;
            && n % 256 == a && n / 256 % 256 == b
            && n / 0x1_0000 % 256 == c && n / 0x100_0000 % 256 == d
  {
    var n := a + b * 256 + c * 0x1_0000 + d * 0x100_0000;
    assert n / 256 == b + c * 256 + d * 0x1_0000;
    assert n / 0x1_0000 == c + d * 256;
    assert n / 0x100_0000 == d;
  }

  /** The same field read in the two orders: swapping the constant is the same as
      swapping the octets. */
  lemma SwappedCompare(b: seq<Byte>, at: nat, c: Word)
    requires at + 4 <= |b|
    ensures ReadLittle4(b, at) == ReadLittle4(Big4(c), 0) <==> ReadBig4(b, at) == c
  {
    var f := b[at..at + 4];
    WriteRead(f);
    ReadWrite(c);
    WriteRead(Big4(c));
    assert ReadLittle4(f, 0) == ReadLittle4(b, at) && ReadBig4(f, 0) == ReadBig4(b, at);
  }

  /** A Diameter field read as a C `int`. */
  function Signed(n: Word): (i: int)
  {
    if n < 0x8000_0000 then n else n - 0x1_0000_0000
  }

  function Zeros(n: nat): (z: seq<Byte>)
    ensures |z| == n
  {
    seq(n, i => 0)
  }

  /** Octets missing to the next multiple of four. */
  function Pad(n: nat): (p: nat)
    ensures p < 4
  {
    if n % 4 == 0 then 0 else 4 - n % 4
  }

  lemma PadAligns(n: nat)
    ensures (n + Pad(n)) % 4 == 0
    ensures Pad(8 + n) == Pad(n)
  {
  }

  // ------------------------------------------------------- sequences of messages

  function Concat(messages: seq<seq<Byte>>): (s: seq<Byte>)
  {
    if messages == [] then [] else messages[0] + Concat(messages[1..])
  }

  lemma {:induction false} ConcatAppend(a: seq<seq<Byte>>, b: seq<seq<Byte>>)
    ensures Concat(a + b) == Concat(a) + Concat(b)
    decreases |a|
  {
    if a == [] {
      assert a + b == b;
    } else {
      assert (a + b)[1..] == a[1..] + b;
      ConcatAppend(a[1..], b);
    }
  }

  lemma ConcatOne(m: seq<Byte>)
    ensures Concat([m]) == m
  {
    assert [m][1..] == [];
  }

  /** Words are read octet by octet, so only those octets matter. */
  lemma SameOctets(a: seq<Byte>, i: nat, b: seq<Byte>, j: nat, n: nat)
    requires i + n <= |a| && j + n <= |b| && a[i..i + n] == b[j..j + n]
    ensures n == 3 ==> ReadBig3(a, i) == ReadBig3(b, j)
    ensures n == 4 ==> ReadBig4(a, i) == ReadBig4(b, j) && ReadLittle4(a, i) == ReadLittle4(b, j)
  {
    var x, y := a[i..i + n], b[j..j + n];
    assert forall k :: 0 <= k < n ==> x[k] == a[i + k] && y[k] == b[j + k];
    assert n >= 3 ==> a[i] == x[0] && a[i + 1] == x[1] && a[i + 2] == x[2];
    assert n >= 4 ==> a[i + 3] == x[3];
  }

  /** `topad` and `AVP::bytes_to_pad`: count upwards until the length in bits is a
      multiple of 32. */
  method BytesToPad(len: nat) returns (i: nat)
    ensures i == Pad(len)
    ensures i < 4 && (len + i) % 4 == 0
  {
    PadAligns(len);
    i := 0;
    while ((len + i) * 8) % 32 != 0
      invariant i <= Pad(len)
      decreases Pad(len) - i
    {
      i := i + 1;
    }
  }

  function Power256(k: nat): (p: nat)
    ensures p > 0
  {
    if k == 0 then 1 else 256 * Power256(k - 1)
  }

  /** `int2hex`: the last octet is the remainder, every other one the quotient by a
      power of 256 computed in an inner loop, cut down to an octet by the store. */
  method IntToHex(buff: array<Byte>, number: nat, size: nat)
    requires 1 <= size <= buff.Length
    modifies buff
    ensures forall i :: 0 <= i < size ==> buff[i] == number / Power256(size - 1 - i) % 256
    ensures buff[size..] == old(buff[size..])
  {
    buff[size - 1] := number % 256;
    var i := 0;
    while i <= size - 2
      invariant 0 <= i <= size - 1
      invariant buff[size - 1] == number % 256
      invariant forall k :: 0 <= k < i ==> buff[k] == number / Power256(size - 1 - k) % 256
      invariant buff[size..] == old(buff[size..])
    {
      var factor, j := 1, 0;
      while j != size - 1 - i
        invariant 0 <= j <= size - 1 - i && factor == Power256(j)
        decreases size - 1 - i - j
      {
        factor := factor * 256;
        j := j + 1;
      }
      buff[i] := number / factor % 256;
      i := i + 1;
    }
    assert Power256(0) == 1 && number / Power256(0) == number;
  }

  lemma FourOctets(number: nat)
    ensures Power256(0) == 1 && Power256(1) == 256 && Power256(2) == 0x1_0000 && Power256(3) == 0x100_0000
  {
    assert Power256(2) == 256 * Power256(1);
    assert Power256(3) == 256 * Power256(2);
  }

  /** A sum kept in a C `int`, in two's complement. */
  function Int32(x: int): (i: int)
  {
    (x + 0x8000_0000) % 0x1_0000_0000 - 0x8000_0000
  }

  /** `oct2int`: the four products summed one at a time into an `int`. */
  method OctetsToInt(i: seq<Byte>) returns (value: int)
    requires |i| == 4
    ensures value == Signed(ReadBig4(i, 0))
  {
    ghost var high: int := HighPart(i[0]);
    var octet: nat := i[0];
    value := 0;
    HighOctet(i[0]);
    value := Int32(value + Int32(octet * 256 * 256 * 256));
    assert value == high;
    octet := i[1];
    InRange(high + octet * 256 * 256);
    value := Int32(value + octet * 256 * 256);
    octet := i[2];
    InRange(value + octet * 256);
    value := Int32(value + octet * 256);
    octet := i[3];
    InRange(value + octet);
    value := Int32(value + octet);
  }

  function HighPart(b: Byte): (n: int)
  {
    if b < 128 then b as int * 0x100_0000 else (b as int - 256) * 0x100_0000
  }

  lemma HighOctet(b: Byte)
    ensures Int32(b as nat * 0x100_0000) == HighPart(b) && Int32(HighPart(b)) == HighPart(b)
  {
  }

  lemma InRange(x: int)
    requires -0x8000_0000 <= x < 0x8000_0000
    ensures Int32(x) == x
  {
  }

  /** `int2hex` followed by `oct2int` is the identity on the non-negative `int`s. */
  method HexRoundTrip(number: nat) returns (back: int)
    requires number < 0x8000_0000
    ensures back == number
  {
    var buff := new Byte[4];
    IntToHex(buff, number, 4);
    FourOctets(number);
    ReadWrite(number);
    assert buff[..] == Big4(number);
    back := OctetsToInt(buff[..]);
  }
}
