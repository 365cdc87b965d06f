/** Machine words and the little-endian byte order that every hash of this project reads and writes.
    Bytes and words are bit-vectors, so that wrap-around is the machine's own. */
module Words {

  type Byte = bv8
  type Bytes = seq<Byte>

  const TWO_32: nat := 0x1_0000_0000
  const TWO_64: nat := 0x1_0000_0000_0000_0000

  function ReadLE32(s: Bytes): bv32
    requires |s| >= 4
  {
    (s[0] as bv32) | ((s[1] as bv32) << 8) | ((s[2] as bv32) << 16) | ((s[3] as bv32) << 24)
  }

  function ReadLE64(s: Bytes): bv64
    requires |s| >= 8
  {
    (s[0] as bv64) | ((s[1] as bv64) << 8) | ((s[2] as bv64) << 16) | ((s[3] as bv64) << 24)
    | ((s[4] as bv64) << 32) | ((s[5] as bv64) << 40) | ((s[6] as bv64) << 48) | ((s[7] as bv64) << 56)
  }

  function WriteLE32(v: bv32): (s: Bytes)
    ensures |s| == 4
  {
    [(v & 0xFF) as bv8, ((v >> 8) & 0xFF) as bv8, ((v >> 16) & 0xFF) as bv8, ((v >> 24) & 0xFF) as bv8]
  }

  function WriteLE64(v: bv64): (s: Bytes)
    ensures |s| == 8
  {
    [(v & 0xFF) as bv8, ((v >> 8) & 0xFF) as bv8, ((v >> 16) & 0xFF) as bv8, ((v >> 24) & 0xFF) as bv8,
     ((v >> 32) & 0xFF) as bv8, ((v >> 40) & 0xFF) as bv8, ((v >> 48) & 0xFF) as bv8, ((v >> 56) & 0xFF) as bv8]
  }

  function Rotl32(x: bv32, r: bv6): bv32
    requires 0 < r < 32
  {
    (x << r) | (x >> (32 - r))
  }

  function Rotl64(x: bv64, r: bv7): bv64
    requires 0 < r < 64
  {
    (x << r) | (x >> (64 - r))
  }

  function Swap32(x: bv32): bv32 {
    ((x << 24) & 0xff000000) | ((x << 8) & 0x00ff0000) | ((x >> 8) & 0x0000ff00) | ((x >> 24) & 0x000000ff)
  }

  function Swap64(x: bv64): bv64 {
    ((x << 56) & 0xff00000000000000) | ((x << 40) & 0x00ff000000000000)
    | ((x << 24) & 0x0000ff0000000000) | ((x << 8) & 0x000000ff00000000)
    | ((x >> 8) & 0x00000000ff000000) | ((x >> 24) & 0x0000000000ff0000)
    | ((x >> 40) & 0x000000000000ff00) | ((x >> 56) & 0x00000000000000ff)
  }

  /** Unsigned wrap-around of a total. */
  function Wrap32(n: nat): (w: nat)
    ensures w < TWO_32
  {
    n % TWO_32
  }

  function Wrap64(n: nat): (w: nat)
    ensures w < TWO_64
  {
    n % TWO_64
  }

  /** A length as the word that the finishers mix in. */
  function LengthWord32(len: nat): bv32 {
    Wrap32(len) as bv32
  }

  function LengthWord64(len: nat): bv64 {
    Wrap64(len) as bv64
  }

  lemma WrapsOnceOnly(len: nat)
    ensures Wrap32(Wrap32(len)) == Wrap32(len) && Wrap64(Wrap64(len)) == Wrap64(len)
  {
  }

  lemma LengthWraps32(len: nat)
    ensures LengthWord32(Wrap32(len)) == LengthWord32(len)
  {
    hide Wrap32;
    WrapsOnceOnly(len);
  }

  lemma WrapsOnce32(before: nat, len: nat)
    ensures Wrap32(Wrap32(before) + len) == Wrap32(before + len)
    ensures before + len < TWO_32 ==> Wrap32(before + len) == before + len
  {
  }

  lemma LengthWraps64(len: nat)
    ensures LengthWord64(Wrap64(len)) == LengthWord64(len)
    ensures len < TWO_64 ==> Wrap64(len) == len
  {
    WrapsOnceOnly(len);
    SmallerThanWrap(len);
    hide Wrap64;
  }

  lemma SmallerThanWrap(len: nat)
    ensures len < TWO_64 ==> Wrap64(len) == len
  {
  }

  lemma WrapsOnce64(before: nat, len: nat)
    ensures Wrap64(Wrap64(before) + len) == Wrap64(before + len)
  {
  }

  lemma ReadWrite32(v: bv32)
    ensures ReadLE32(WriteLE32(v)) == v
  {
    assert (v & 0xFF) | (v & 0xFF00) | (v & 0xFF0000) | (v & 0xFF000000) == v;
  }

  lemma WriteRead32(s: Bytes)
    requires |s| >= 4
    ensures WriteLE32(ReadLE32(s)) == s[..4]
  {
  }

  lemma ReadWrite64(v: bv64)
    ensures ReadLE64(WriteLE64(v)) == v
  {
    var s := WriteLE64(v);
    assert (v & 0xFF) | (v & 0xFF00) | (v & 0xFF0000) | (v & 0xFF000000) | (v & 0xFF00000000)
           | (v & 0xFF0000000000) | (v & 0xFF000000000000) | (v & 0xFF00000000000000) == v;
  }

  lemma WriteRead64(s: Bytes)
    requires |s| >= 8
    ensures WriteLE64(ReadLE64(s)) == s[..8]
  {
  }

  function ByteOrZero(s: Bytes, i: nat): Byte {
    if i < |s| then s[i] else 0
  }

  function Zeros(n: nat): (s: Bytes)
    ensures |s| == n
  {
    seq(n, _ => 0)
  }

  function Join32(a: Byte, b: Byte, c: Byte, d: Byte): bv32 {
    ((d as bv32) << 24) ^ ((c as bv32) << 16) ^ ((b as bv32) << 8) ^ (a as bv32)
  }

  function Join64(a: Byte, b: Byte, c: Byte, d: Byte, e: Byte, f: Byte, g: Byte, h: Byte): bv64 {
    ((h as bv64) << 56) ^ ((g as bv64) << 48) ^ ((f as bv64) << 40) ^ ((e as bv64) << 32)
    ^ ((d as bv64) << 24) ^ ((c as bv64) << 16) ^ ((b as bv64) << 8) ^ (a as bv64)
  }

  /** At most four bytes put together lowest first, as a switch over the tail of a key does. */
  function PartLE32(s: Bytes): bv32 {
    Join32(ByteOrZero(s, 0), ByteOrZero(s, 1), ByteOrZero(s, 2), ByteOrZero(s, 3))
  }

  function PartLE64(s: Bytes): bv64 {
    Join64(ByteOrZero(s, 0), ByteOrZero(s, 1), ByteOrZero(s, 2), ByteOrZero(s, 3),
           ByteOrZero(s, 4), ByteOrZero(s, 5), ByteOrZero(s, 6), ByteOrZero(s, 7))
  }

  lemma Join32Bytes(a: Byte, b: Byte, c: Byte, d: Byte)
    ensures WriteLE32(Join32(a, b, c, d)) == [a, b, c, d]
  {
  }

  lemma Join64Bytes(a: Byte, b: Byte, c: Byte, d: Byte, e: Byte, f: Byte, g: Byte, h: Byte)
    ensures WriteLE64(Join64(a, b, c, d, e, f, g, h)) == [a, b, c, d, e, f, g, h]
  {
  }

  /** The bytes can be read back, so that tails of one length never make the same word. */
  lemma PartBytes32(s: Bytes)
    requires |s| <= 4
    ensures WriteLE32(PartLE32(s))[..|s|] == s
  {
    hide WriteLE32, Join32;
    Join32Bytes(ByteOrZero(s, 0), ByteOrZero(s, 1), ByteOrZero(s, 2), ByteOrZero(s, 3));
  }

  lemma PartBytes64(s: Bytes)
    requires |s| <= 8
    ensures WriteLE64(PartLE64(s))[..|s|] == s
  {
    hide WriteLE64, Join64;
    Join64Bytes(ByteOrZero(s, 0), ByteOrZero(s, 1), ByteOrZero(s, 2), ByteOrZero(s, 3),
                ByteOrZero(s, 4), ByteOrZero(s, 5), ByteOrZero(s, 6), ByteOrZero(s, 7));
  }

  function XorIn32(k: bv32, b: Byte, shift: bv6): bv32
    requires shift <= 24
  {
    k ^ ((b as bv32) << shift)
  }

  function XorIn64(k: bv64, b: Byte, shift: bv7): bv64
    requires shift <= 56
  {
    k ^ ((b as bv64) << shift)
  }

  lemma XorIn32Joins(a: Byte, b: Byte, c: Byte, d: Byte)
    ensures XorIn32(XorIn32(XorIn32(XorIn32(0, d, 24), c, 16), b, 8), a, 0) == Join32(a, b, c, d)
  {
  }

  lemma XorIn32Nothing()
    ensures XorIn32(0, 0, 24) == XorIn32(0, 0, 16) == XorIn32(0, 0, 8) == 0
  {
  }

  lemma XorIn64Joins(a: Byte, b: Byte, c: Byte, d: Byte, e: Byte, f: Byte, g: Byte, h: Byte)
    ensures XorIn64(XorIn64(XorIn64(XorIn64(XorIn64(XorIn64(XorIn64(XorIn64(0, h, 56), g, 48), f, 40), e, 32), d, 24), c, 16), b, 8), a, 0) == Join64(a, b, c, d, e, f, g, h)
  {
  }

  lemma XorIn64Nothing()
    ensures XorIn64(0, 0, 56) == XorIn64(0, 0, 48) == XorIn64(0, 0, 40) == XorIn64(0, 0, 32) == XorIn64(0, 0, 24) == XorIn64(0, 0, 16) == XorIn64(0, 0, 8) == 0
  {
  }

  /** The fall-through rows of one word of a tail, the highest byte there is first. */
  method GatherTail32(s: Bytes) returns (k: bv32)
    requires 0 < |s| <= 4
    ensures k == PartLE32(s)
  {
    hide Join32, XorIn32;
    XorIn32Nothing();
    k := 0;
    if |s| >= 4 { k := XorIn32(k, s[3], 24); }
    if |s| >= 3 { k := XorIn32(k, s[2], 16); }
    if |s| >= 2 { k := XorIn32(k, s[1], 8); }
    k := XorIn32(k, s[0], 0);
    XorIn32Joins(ByteOrZero(s, 0), ByteOrZero(s, 1), ByteOrZero(s, 2), ByteOrZero(s, 3));
  }

  /** The fall-through rows of one word of a tail, the highest byte there is first. */
  method GatherTail64(s: Bytes) returns (k: bv64)
    requires 0 < |s| <= 8
    ensures k == PartLE64(s)
  {
    hide Join64, XorIn64;
    XorIn64Nothing();
    k := 0;
    if |s| >= 8 { k := XorIn64(k, s[7], 56); }
    if |s| >= 7 { k := XorIn64(k, s[6], 48); }
    if |s| >= 6 { k := XorIn64(k, s[5], 40); }
    if |s| >= 5 { k := XorIn64(k, s[4], 32); }
    if |s| >= 4 { k := XorIn64(k, s[3], 24); }
    if |s| >= 3 { k := XorIn64(k, s[2], 16); }
    if |s| >= 2 { k := XorIn64(k, s[1], 8); }
    k := XorIn64(k, s[0], 0);
    XorIn64Joins(ByteOrZero(s, 0), ByteOrZero(s, 1), ByteOrZero(s, 2), ByteOrZero(s, 3), ByteOrZero(s, 4), ByteOrZero(s, 5), ByteOrZero(s, 6), ByteOrZero(s, 7));
  }

  /** memcpy into an array. */
  method CopyInto(a: array<Byte>, at: nat, bytes: Bytes)
    requires at + |bytes| <= a.Length
    modifies a
    ensures a[..] == old(a[..at]) + bytes + old(a[at + |bytes|..])
  {
    forall i | 0 <= i < |bytes| { a[at + i] := bytes[i]; }
  }
}
