/** The mixing steps that XXH3 adds to those of XXH64. */
module Xxh3Mix {
  import opened Mixing
  import opened Products
  import opened Words

  function WordAt(s: Bytes, at: nat): bv64
    requires at + 8 <= |s|
  {
    ReadLE64(s[at..at + 8])
  }

  function HalfWordAt(s: Bytes, at: nat): bv32
    requires at + 4 <= |s|
  {
    ReadLE32(s[at..at + 4])
  }

  function Mul128Fold64(lhs: bv64, rhs: bv64): bv64 {
    var product := Mult64To128(lhs, rhs);
    Xor64(product.low64, product.high64)
  }

  /** The light avalanche, for words that are partly mixed already. */
  function Avalanche(h: bv64): bv64 {
    XorShr64(Mul64(XorShr64(h, 37), 0x165667919E3779F9), 32)
  }

  function UnAvalanche(h: bv64): bv64 {
    UnXorShr64(Mul64(UnXorShr64(h, 32), 0x8DA8EE41D6DF849), 37)
  }

  lemma Mul64ByMx1(x: bv64)
    ensures Mul64(Mul64(x, 0x165667919E3779F9), 0x8DA8EE41D6DF849) == x
    ensures Mul64(Mul64(x, 0x8DA8EE41D6DF849), 0x165667919E3779F9) == x
  {
    assert Mul64(x * 0x165667919E3779F9, 0x8DA8EE41D6DF849) == x && Mul64(x * 0x8DA8EE41D6DF849, 0x165667919E3779F9) == x;
  }

  /** The avalanche loses nothing. */
  lemma AvalancheUndone(h: bv64)
    ensures UnAvalanche(Avalanche(h)) == h && Avalanche(UnAvalanche(h)) == h
  {
    hide Mul64, XorShr64, UnXorShr64;
    var x := XorShr64(h, 37);
    XorShr64By32(Mul64(x, 0x165667919E3779F9));
    Mul64ByMx1(x);
    XorShr64By37(h);
    var y := UnXorShr64(h, 32);
    XorShr64By37(Mul64(y, 0x8DA8EE41D6DF849));
    Mul64ByMx1(y);
    XorShr64By32(h);
  }

  // ---- rrmxmx ----

  /** A word xored with two rotations of itself. Squaring this map doubles both rotation counts, and
      the third squaring leaves a plain rotation by 8, which is how it is undone. */
  function RotXor(x: bv64): bv64 { TwoTurns(x, 49, 24) }

  function TwoTurns(x: bv64, r: bv7, s: bv7): bv64
    requires 0 < r < 64 && 0 < s < 64
  {
    Xor64(x, Xor64(Rotl64(x, r), Rotl64(x, s)))
  }

  function RotXor2(x: bv64): bv64 { RotXor(RotXor(x)) }
  function RotXor4(x: bv64): bv64 { RotXor2(RotXor2(x)) }

  function UnRotXor(y: bv64): bv64 { Rotl64(RotXor4(RotXor2(RotXor(y))), 56) }

  lemma Turns(x: bv64)
    ensures Rotl64(x, 49) == (x << 49) | (x >> 15)
    ensures Rotl64(x, 24) == (x << 24) | (x >> 40)
    ensures Rotl64(x, 34) == (x << 34) | (x >> 30)
    ensures Rotl64(x, 48) == (x << 48) | (x >> 16)
    ensures Rotl64(x, 4) == (x << 4) | (x >> 60)
    ensures Rotl64(x, 32) == (x << 32) | (x >> 32)
    ensures Rotl64(x, 8) == (x << 8) | (x >> 56)
    ensures Rotl64(x, 56) == (x << 56) | (x >> 8)
    ensures Rotl64(x, 9) == (x << 9) | (x >> 55)
    ensures Rotl64(x, 18) == (x << 18) | (x >> 46)
    ensures Rotl64(x, 36) == (x << 36) | (x >> 28)
    ensures Rotl64(x, 41) == (x << 41) | (x >> 23)
    ensures Rotl64(x, 16) == (x << 16) | (x >> 48)
  {
  }

  lemma TurnsOfShifted(x: bv64)
    ensures Rotl64((x << 49) | (x >> 15), 49) == (x << 34) | (x >> 30)
    ensures Rotl64((x << 49) | (x >> 15), 24) == (x << 9) | (x >> 55)
    ensures Rotl64((x << 24) | (x >> 40), 49) == (x << 9) | (x >> 55)
    ensures Rotl64((x << 24) | (x >> 40), 24) == (x << 48) | (x >> 16)
    ensures Rotl64((x << 34) | (x >> 30), 34) == (x << 4) | (x >> 60)
    ensures Rotl64((x << 48) | (x >> 16), 34) == (x << 18) | (x >> 46)
    ensures Rotl64((x << 34) | (x >> 30), 48) == (x << 18) | (x >> 46)
    ensures Rotl64((x << 48) | (x >> 16), 48) == (x << 32) | (x >> 32)
    ensures Rotl64((x << 4) | (x >> 60), 4) == (x << 8) | (x >> 56)
    ensures Rotl64((x << 32) | (x >> 32), 4) == (x << 36) | (x >> 28)
    ensures Rotl64((x << 4) | (x >> 60), 32) == (x << 36) | (x >> 28)
    ensures Rotl64((x << 49) | (x >> 15), 56) == (x << 41) | (x >> 23)
    ensures Rotl64((x << 56) | (x >> 8), 49) == (x << 41) | (x >> 23)
    ensures Rotl64((x << 24) | (x >> 40), 56) == (x << 16) | (x >> 48)
    ensures Rotl64((x << 56) | (x >> 8), 24) == (x << 16) | (x >> 48)
    ensures Rotl64((x << 8) | (x >> 56), 56) == x && Rotl64((x << 56) | (x >> 8), 8) == x
    ensures Rotl64((x << 32) | (x >> 32), 32) == x
  {
  }

  /** Rotations add up. */
  lemma TurnsAddUp(x: bv64)
    ensures Rotl64(Rotl64(x, 49), 49) == Rotl64(x, 34)
    ensures Rotl64(Rotl64(x, 49), 24) == Rotl64(x, 9)
    ensures Rotl64(Rotl64(x, 24), 49) == Rotl64(x, 9)
    ensures Rotl64(Rotl64(x, 24), 24) == Rotl64(x, 48)
    ensures Rotl64(Rotl64(x, 34), 34) == Rotl64(x, 4)
    ensures Rotl64(Rotl64(x, 48), 34) == Rotl64(x, 18)
    ensures Rotl64(Rotl64(x, 34), 48) == Rotl64(x, 18)
    ensures Rotl64(Rotl64(x, 48), 48) == Rotl64(x, 32)
    ensures Rotl64(Rotl64(x, 4), 4) == Rotl64(x, 8)
    ensures Rotl64(Rotl64(x, 32), 4) == Rotl64(x, 36)
    ensures Rotl64(Rotl64(x, 4), 32) == Rotl64(x, 36)
    ensures Rotl64(Rotl64(x, 49), 56) == Rotl64(x, 41)
    ensures Rotl64(Rotl64(x, 56), 49) == Rotl64(x, 41)
    ensures Rotl64(Rotl64(x, 24), 56) == Rotl64(x, 16)
    ensures Rotl64(Rotl64(x, 56), 24) == Rotl64(x, 16)
    ensures Rotl64(Rotl64(x, 8), 56) == x && Rotl64(Rotl64(x, 56), 8) == x && Rotl64(Rotl64(x, 32), 32) == x
  {
    hide Rotl64;
    Turns(x);
    TurnsOfShifted(x);
  }

  lemma XorTurns49(x: bv64, y: bv64)
    ensures Rotl64(Xor64(x, y), 49) == Xor64(Rotl64(x, 49), Rotl64(y, 49))
  {
  }

  lemma XorTurns24(x: bv64, y: bv64)
    ensures Rotl64(Xor64(x, y), 24) == Xor64(Rotl64(x, 24), Rotl64(y, 24))
  {
  }

  lemma XorTurns34(x: bv64, y: bv64)
    ensures Rotl64(Xor64(x, y), 34) == Xor64(Rotl64(x, 34), Rotl64(y, 34))
  {
  }

  lemma XorTurns48(x: bv64, y: bv64)
    ensures Rotl64(Xor64(x, y), 48) == Xor64(Rotl64(x, 48), Rotl64(y, 48))
  {
  }

  lemma XorTurns4(x: bv64, y: bv64)
    ensures Rotl64(Xor64(x, y), 4) == Xor64(Rotl64(x, 4), Rotl64(y, 4))
  {
  }

  lemma XorTurns32(x: bv64, y: bv64)
    ensures Rotl64(Xor64(x, y), 32) == Xor64(Rotl64(x, 32), Rotl64(y, 32))
  {
  }

  lemma XorTurns56(x: bv64, y: bv64)
    ensures Rotl64(Xor64(x, y), 56) == Xor64(Rotl64(x, 56), Rotl64(y, 56))
  {
  }

  lemma XorDefinition(x: bv64, y: bv64)
    ensures Xor64(x, y) == x ^ y
  {
  }

  lemma XorFlat(a: bv64, b: bv64, c: bv64)
    ensures Xor64(a ^ b, c) == Xor64(a, b ^ c)
  {
  }

  lemma XorAssociates(a: bv64, b: bv64, c: bv64)
    ensures Xor64(Xor64(a, b), c) == Xor64(a, Xor64(b, c))
  {
    hide Xor64;
    XorDefinition(a, b);
    XorDefinition(b, c);
    XorFlat(a, b, c);
  }

  lemma XorRegroups(a: bv64, s: bv64, b: bv64, t: bv64)
    ensures Xor64(Xor64(a, s), Xor64(b, t)) == Xor64(Xor64(a, b), Xor64(s, t))
  {
    hide Xor64;
    XorAssociates(a, s, Xor64(b, t));
    XorAssociates(s, b, t);
    XorUndone64(s, b);
    XorAssociates(b, s, t);
    XorAssociates(a, b, Xor64(s, t));
  }

  lemma XorSharedCancels(m: bv64, q: bv64, n: bv64)
    ensures Xor64(Xor64(m, q), Xor64(q, n)) == Xor64(m, n)
  {
    hide Xor64;
    XorAssociates(Xor64(m, q), q, n);
    XorUndone64(m, q);
  }

  /** Applying the map with turns a and b twice leaves the turns by 2a and 2b. */
  lemma CrossTermsCancel(x: bv64, a: bv64, b: bv64, p: bv64, q: bv64, r: bv64)
    ensures Xor64(Xor64(x, Xor64(a, b)), Xor64(Xor64(a, Xor64(p, q)), Xor64(b, Xor64(q, r)))) == Xor64(x, Xor64(p, r))
  {
    hide Xor64;
    XorRegroups(a, Xor64(p, q), b, Xor64(q, r));
    XorSharedCancels(p, q, r);
    XorSharedCancels(x, Xor64(a, b), Xor64(p, r));
  }

  lemma TurnedTwice(x: bv64)
    ensures RotXor2(x) == TwoTurns(x, 34, 48)
  {
    hide Xor64, Rotl64;
    var a, b := Rotl64(x, 49), Rotl64(x, 24);
    XorTurns49(x, Xor64(a, b));
    XorTurns49(a, b);
    XorTurns24(x, Xor64(a, b));
    XorTurns24(a, b);
    TurnsAddUp(x);
    CrossTermsCancel(x, a, b, Rotl64(a, 49), Rotl64(b, 49), Rotl64(b, 24));
  }

  lemma TurnedFourTimes(x: bv64)
    ensures RotXor4(x) == TwoTurns(x, 4, 32)
  {
    hide Xor64, Rotl64, RotXor2;
    TurnedTwice(x);
    TurnedTwice(RotXor2(x));
    var a, b := Rotl64(x, 34), Rotl64(x, 48);
    XorTurns34(x, Xor64(a, b));
    XorTurns34(a, b);
    XorTurns48(x, Xor64(a, b));
    XorTurns48(a, b);
    TurnsAddUp(x);
    CrossTermsCancel(x, a, b, Rotl64(a, 34), Rotl64(b, 34), Rotl64(b, 48));
  }

  lemma XorSelfPair(x: bv64, p: bv64)
    ensures Xor64(x, Xor64(p, x)) == p
  {
    assert Xor64(x, p ^ x) == p;
  }

  lemma TurnedEightTimes(x: bv64)
    ensures RotXor4(RotXor4(x)) == Rotl64(x, 8)
  {
    hide Xor64, Rotl64, RotXor4;
    TurnedFourTimes(x);
    TurnedFourTimes(RotXor4(x));
    var a, b := Rotl64(x, 4), Rotl64(x, 32);
    XorTurns4(x, Xor64(a, b));
    XorTurns4(a, b);
    XorTurns32(x, Xor64(a, b));
    XorTurns32(a, b);
    TurnsAddUp(x);
    CrossTermsCancel(x, a, b, Rotl64(a, 4), Rotl64(b, 4), Rotl64(b, 32));
    XorSelfPair(x, Rotl64(x, 8));
  }

  lemma RotXorCommutesWithTurn(x: bv64)
    ensures RotXor(Rotl64(x, 56)) == Rotl64(RotXor(x), 56)
  {
    hide Xor64, Rotl64;
    XorTurns56(x, Xor64(Rotl64(x, 49), Rotl64(x, 24)));
    XorTurns56(Rotl64(x, 49), Rotl64(x, 24));
    TurnsAddUp(x);
  }

  /** Seven more applications and a turn back undo one, from either side. */
  lemma RotXorUndone(x: bv64)
    ensures UnRotXor(RotXor(x)) == x && RotXor(UnRotXor(x)) == x
  {
    hide RotXor, Rotl64;
    TurnedEightTimes(x);
    TurnsAddUp(x);
    RotXorCommutesWithTurn(RotXor4(RotXor2(RotXor(x))));
  }

  /** The middle of rrmxmx: the length is added below the bits that the shift reads. */
  function XorShrAdd35(x: bv64, len: bv64): bv64 { x ^ ((x >> 35) + len) }

  lemma XorShrAdd35Undone(x: bv64, len: bv4)
    ensures XorShrAdd35(XorShrAdd35(x, len as bv64), len as bv64) == x
  {
    assert XorShrAdd35(x ^ ((x >> 35) + (len as bv64)), len as bv64) == x;
  }

  function Rrmxmx(h: bv64, len: bv64): bv64 {
    XorShr64(Mul64(XorShrAdd35(Mul64(RotXor(h), 0x9FB21C651E98DF25), len), 0x9FB21C651E98DF25), 28)
  }

  function UnRrmxmx(h: bv64, len: bv64): bv64 {
    UnRotXor(Mul64(XorShrAdd35(Mul64(UnXorShr64(h, 28), 0x02AB9C720D1024AD), len), 0x02AB9C720D1024AD))
  }

  function Widen(len: bv4): bv64 { len as bv64 }

  lemma XorShrAdd35Widened(x: bv64, len: bv4)
    ensures XorShrAdd35(XorShrAdd35(x, Widen(len)), Widen(len)) == x
  {
    hide XorShrAdd35;
    XorShrAdd35Undone(x, len);
  }

  /** For every length below 16 the stronger avalanche loses nothing either. */
  lemma RrmxmxUndone(h: bv64, len: bv4)
    ensures UnRrmxmx(Rrmxmx(h, Widen(len)), Widen(len)) == h && Rrmxmx(UnRrmxmx(h, Widen(len)), Widen(len)) == h
  {
    hide Mul64, XorShr64, UnXorShr64, RotXor, UnRotXor, XorShrAdd35, Widen;
    var x := Mul64(RotXor(h), 0x9FB21C651E98DF25);
    var y := XorShrAdd35(x, Widen(len));
    XorShr64By28(Mul64(y, 0x9FB21C651E98DF25));
    Mul64ByMx2(y);
    XorShrAdd35Widened(x, len);
    Mul64ByMx2(RotXor(h));
    RotXorUndone(h);
    var z := Mul64(UnXorShr64(h, 28), 0x02AB9C720D1024AD);
    var w := XorShrAdd35(z, Widen(len));
    RotXorUndone(Mul64(w, 0x02AB9C720D1024AD));
    Mul64ByMx2(w);
    XorShrAdd35Widened(z, len);
    Mul64ByMx2(UnXorShr64(h, 28));
    XorShr64By28(h);
  }

  // ---- Pieces of short inputs ----

  function SwapSeed(seed: bv64): bv64 {
    seed ^ ((Swap32((seed & 0xFFFFFFFF) as bv32) as bv64) << 32)
  }

  /** One to three bytes and their number, packed into a word. */
  function Combined(c1: Byte, c2: Byte, c3: Byte, len: Byte): bv32 {
    ((c1 as bv32) << 16) | ((c2 as bv32) << 24) | (c3 as bv32) | ((len as bv32) << 8)
  }

  lemma CombinedBytes(c1: Byte, c2: Byte, c3: Byte, len: Byte)
    ensures WriteLE32(Combined(c1, c2, c3, len)) == [c3, len, c1, c2]
  {
  }

  function LengthByte(len: nat): Byte
    requires len < 256
  {
    len as bv8
  }

  lemma LengthBytes()
    ensures LengthByte(1) == 1 && LengthByte(2) == 2 && LengthByte(3) == 3
  {
  }

  function Packed(input: Bytes): bv32
    requires 1 <= |input| <= 3
  {
    Combined(input[0], input[|input| / 2], input[|input| - 1], LengthByte(|input|))
  }

  /** The packing keeps the bytes and how many they are. */
  lemma PackedInjective(a: Bytes, b: Bytes)
    requires 1 <= |a| <= 3 && 1 <= |b| <= 3
    requires Packed(a) == Packed(b)
    ensures a == b
  {
    hide Combined, WriteLE32, LengthByte;
    CombinedBytes(a[0], a[|a| / 2], a[|a| - 1], LengthByte(|a|));
    CombinedBytes(b[0], b[|b| / 2], b[|b| - 1], LengthByte(|b|));
    LengthBytes();
    var s, t := [a[|a| - 1], LengthByte(|a|), a[0], a[|a| / 2]], [b[|b| - 1], LengthByte(|b|), b[0], b[|b| / 2]];
    assert s == t;
    assert s[0] == t[0] && s[1] == t[1] && s[2] == t[2] && s[3] == t[3];
  }

  function Widen32(x: bv32): bv64 { x as bv64 }

  lemma Widen32Injective(x: bv32, y: bv32)
    requires Widen32(x) == Widen32(y)
    ensures x == y
  {
  }

  /** Sixteen bytes of a medium input, keyed and multiplied. */
  function Mix16B(input: Bytes, secret: Bytes, seed: bv64): bv64
    requires |input| >= 16 && |secret| >= 16
  {
    Mul128Fold64(Xor64(WordAt(input, 0), Add64(WordAt(secret, 0), seed)),
                 Xor64(WordAt(input, 8), Sub64(WordAt(secret, 8), seed)))
  }
}
