/** Where XXH3 cannot collide: with the secret and the seed fixed, on inputs of one to three bytes
    whatever their lengths, and on inputs of one length of at most 8 bytes (64-bit) or 16 (128-bit). */
module Xxh3Injective {
  import opened Mixing
  import opened Products
  import opened Words
  import opened Xxh3Mix
  import opened Xxh3OneShot
  import opened Xxh3Stripes
  import S64 = Xxh3Short64
  import S128 = Xxh3Short128
  import Xxh64
  import Xxh64Collisions

  // ---- The steps ----

  lemma XorSame(x: bv64, y: bv64, k: bv64)
    requires Xor64(x, k) == Xor64(y, k)
    ensures x == y
  {
    hide Xor64;
    XorUndone64(x, k);
    XorUndone64(y, k);
  }

  lemma AddSame(k: bv64, x: bv64, y: bv64)
    requires Add64(k, x) == Add64(k, y)
    ensures x == y
  {
    hide Add64, Sub64;
    AddSwaps64(k, x);
    AddSwaps64(k, y);
    AddUndone64(x, k);
    AddUndone64(y, k);
  }

  lemma AvalancheSame(x: bv64, y: bv64)
    requires Avalanche(x) == Avalanche(y)
    ensures x == y
  {
    hide Avalanche, UnAvalanche;
    AvalancheUndone(x);
    AvalancheUndone(y);
  }

  lemma ReadSame64(a: Bytes, b: Bytes)
    requires |a| == |b| == 8 && ReadLE64(a) == ReadLE64(b)
    ensures a == b
  {
    hide ReadLE64, WriteLE64;
    WriteRead64(a);
    WriteRead64(b);
    assert a[..8] == a && b[..8] == b;
  }

  lemma ReadSame32(a: Bytes, b: Bytes)
    requires |a| == |b| == 4 && ReadLE32(a) == ReadLE32(b)
    ensures a == b
  {
    hide ReadLE32, WriteLE32;
    WriteRead32(a);
    WriteRead32(b);
    assert a[..4] == a && b[..4] == b;
  }

  /** Two windows that cover an input between them determine it. */
  lemma TwoWindows(a: Bytes, b: Bytes, w: nat)
    requires |a| == |b| && w <= |a| <= 2 * w
    requires a[0..w] == b[0..w] && a[|a| - w..] == b[|b| - w..]
    ensures a == b
  {
    forall i | 0 <= i < |a| ensures a[i] == b[i] {
      if i < w {
        assert a[i] == a[0..w][i];
      } else {
        assert a[i] == a[|a| - w..][i - (|a| - w)];
      }
    }
  }

  // ---- One to three bytes, of any length ----

  lemma OneToThree64(a: Bytes, b: Bytes, secret: Secret, seed: bv64)
    requires 1 <= |a| <= 3 && 1 <= |b| <= 3
    requires S64.Len1To3(a, secret, seed) == S64.Len1To3(b, secret, seed)
    ensures a == b
  {
    hide Xxh64.Avalanche, Xor64, Packed, Widen32, S64.BitFlip1To3;
    var k := S64.BitFlip1To3(secret, seed);
    Xxh64Collisions.AvalancheInjective(Xor64(Widen32(Packed(a)), k), Xor64(Widen32(Packed(b)), k));
    XorSame(Widen32(Packed(a)), Widen32(Packed(b)), k);
    Widen32Injective(Packed(a), Packed(b));
    PackedInjective(a, b);
  }

  /** The low word alone already tells the inputs apart. */
  lemma OneToThree128(a: Bytes, b: Bytes, secret: Secret, seed: bv64)
    requires 1 <= |a| <= 3 && 1 <= |b| <= 3
    requires S128.Len1To3(a, secret, seed) == S128.Len1To3(b, secret, seed)
    ensures a == b
  {
    hide Xxh64.Avalanche, Xor64, Packed, Widen32;
    OneToThree64(a, b, secret, seed);
  }

  // ---- Four to eight bytes, of one length ----

  lemma Input64Same(p: bv32, q: bv32, r: bv32, s: bv32)
    requires S64.Input64(p, q) == S64.Input64(r, s)
    ensures p == r && q == s
  {
  }

  lemma FourToEightWords(a: Bytes, b: Bytes)
    requires |a| == |b| && 4 <= |a| <= 8
    requires HalfWordAt(a, 0) == HalfWordAt(b, 0) && HalfWordAt(a, |a| - 4) == HalfWordAt(b, |b| - 4)
    ensures a == b
  {
    hide ReadLE32;
    ReadSame32(a[0..4], b[0..4]);
    assert a[|a| - 4..] == a[|a| - 4..|a| - 4 + 4] && b[|b| - 4..] == b[|b| - 4..|b| - 4 + 4];
    ReadSame32(a[|a| - 4..], b[|b| - 4..]);
    TwoWindows(a, b, 4);
  }

  function NarrowLength(len: nat): bv4
    requires 4 <= len <= 8
  {
    match len
    case 4 => 4
    case 5 => 5
    case 6 => 6
    case 7 => 7
    case _ => 8
  }

  lemma LengthLiteral4()
    ensures LengthWord64(4) == 4
  {
  }

  lemma LengthLiteral5()
    ensures LengthWord64(5) == 5
  {
  }

  lemma LengthLiteral6()
    ensures LengthWord64(6) == 6
  {
  }

  lemma LengthLiteral7()
    ensures LengthWord64(7) == 7
  {
  }

  lemma LengthLiteral8()
    ensures LengthWord64(8) == 8
  {
  }

  lemma WidenLiterals()
    ensures Widen(4) == 4 && Widen(5) == 5 && Widen(6) == 6 && Widen(7) == 7 && Widen(8) == 8
  {
  }

  lemma LengthWords(len: nat)
    requires 4 <= len <= 8
    ensures LengthWord64(len) == Widen(NarrowLength(len))
  {
    hide LengthWord64, Widen;
    LengthLiteral4();
    LengthLiteral5();
    LengthLiteral6();
    LengthLiteral7();
    LengthLiteral8();
    WidenLiterals();
  }

  lemma FourToEight64(a: Bytes, b: Bytes, secret: Secret, seed: bv64)
    requires |a| == |b| && 4 <= |a| <= 8
    requires S64.Len4To8(a, secret, seed) == S64.Len4To8(b, secret, seed)
    ensures a == b
  {
    hide Rrmxmx, UnRrmxmx, Xor64, S64.Input64, S64.BitFlip4To8, ReadLE32, LengthWord64, Widen, NarrowLength;
    var k := S64.BitFlip4To8(secret, seed);
    var x := S64.Input64(HalfWordAt(a, 0), HalfWordAt(a, |a| - 4));
    var y := S64.Input64(HalfWordAt(b, 0), HalfWordAt(b, |b| - 4));
    LengthWords(|a|);
    RrmxmxUndone(Xor64(x, k), NarrowLength(|a|));
    RrmxmxUndone(Xor64(y, k), NarrowLength(|a|));
    XorSame(x, y, k);
    Input64Same(HalfWordAt(a, 0), HalfWordAt(a, |a| - 4), HalfWordAt(b, 0), HalfWordAt(b, |b| - 4));
    FourToEightWords(a, b);
  }

  function UnFinish4To8(h: Hash128): bv64 {
    var high := UnAvalanche(h.high64);
    Xor64(UnXorShr64(Mul64(UnXorShr64(h.low64, 28), 0x02AB9C720D1024AD), 35), S128.ShiftRight3(high))
  }

  /** Both words of the hash together give back the low word of the product. */
  lemma Finish4To8Undone(m: Hash128)
    ensures UnFinish4To8(S128.Finish4To8(m)) == m.low64
  {
    hide Avalanche, UnAvalanche, Xor64, Add64, Mul64, XorShr64, UnXorShr64, S128.ShiftRight3, S128.ShiftLeft1;
    var high := Add64(m.high64, S128.ShiftLeft1(m.low64));
    var low := Xor64(m.low64, S128.ShiftRight3(high));
    AvalancheUndone(high);
    XorShr64By28(Mul64(XorShr64(low, 35), 0x9FB21C651E98DF25));
    Mul64ByMx2(XorShr64(low, 35));
    XorShr64By35(low);
    XorUndone64(m.low64, S128.ShiftRight3(high));
  }

  function UnMultiplier(len: nat): bv64
    requires 4 <= len <= 8
  {
    match len
    case 4 => 0xC58FC94211B05527
    case 5 => 0xF3655C2B3B120B93
    case 6 => 0x4A353FC06E6CD15F
    case 7 => 0x72A86F8FF240390B
    case _ => 0x6261C8662F213D17
  }

  lemma MulFlat(x: bv64, y: bv64, z: bv64)
    ensures Mul64(x * y, z) == x * y * z
    ensures Mul64(x, y * z) == x * y * z
  {
  }

  lemma MulDefinition(x: bv64, y: bv64)
    ensures Mul64(x, y) == x * y
  {
  }

  lemma MulAssociates(x: bv64, y: bv64, z: bv64)
    ensures Mul64(Mul64(x, y), z) == Mul64(x, Mul64(y, z))
  {
    hide Mul64;
    MulDefinition(x, y);
    MulDefinition(y, z);
    MulFlat(x, y, z);
  }

  lemma MulOne(x: bv64)
    ensures Mul64(x, 1) == x
  {
  }

  lemma MultiplierLiterals()
    ensures S128.Multiplier(4) == 0x9E3779B185EBCA97 && S128.Multiplier(5) == 0x9E3779B185EBCA9B
    ensures S128.Multiplier(6) == 0x9E3779B185EBCA9F && S128.Multiplier(7) == 0x9E3779B185EBCAA3
    ensures S128.Multiplier(8) == 0x9E3779B185EBCAA7
  {
    hide LengthWord64;
    LengthLiteral4();
    LengthLiteral5();
    LengthLiteral6();
    LengthLiteral7();
    LengthLiteral8();
  }

  lemma MultiplierInverses()
    ensures Mul64(0x9E3779B185EBCA97, 0xC58FC94211B05527) == 1 && Mul64(0x9E3779B185EBCA9B, 0xF3655C2B3B120B93) == 1
    ensures Mul64(0x9E3779B185EBCA9F, 0x4A353FC06E6CD15F) == 1 && Mul64(0x9E3779B185EBCAA3, 0x72A86F8FF240390B) == 1
    ensures Mul64(0x9E3779B185EBCAA7, 0x6261C8662F213D17) == 1
  {
  }

  /** Adding four times the length keeps the multiplier odd, so every product can be divided again. */
  lemma MultiplierUndone(x: bv64, len: nat)
    requires 4 <= len <= 8
    ensures Mul64(Mul64(x, S128.Multiplier(len)), UnMultiplier(len)) == x
  {
    hide Mul64, S128.Multiplier;
    MultiplierLiterals();
    MultiplierInverses();
    assert Mul64(S128.Multiplier(len), UnMultiplier(len)) == 1;
    MulAssociates(x, S128.Multiplier(len), UnMultiplier(len));
    MulOne(x);
  }

  lemma FourToEight128(a: Bytes, b: Bytes, secret: Secret, seed: bv64)
    requires |a| == |b| && 4 <= |a| <= 8
    requires S128.Len4To8(a, secret, seed) == S128.Len4To8(b, secret, seed)
    ensures a == b
  {
    hide S128.Finish4To8, UnFinish4To8, Xor64, Mul64, Mult64To128, S64.Input64, S128.BitFlip4To8, S128.Multiplier, ReadLE32, UnMultiplier;
    var k, p := S128.BitFlip4To8(secret, seed), S128.Multiplier(|a|);
    var x := S64.Input64(HalfWordAt(a, |a| - 4), HalfWordAt(a, 0));
    var y := S64.Input64(HalfWordAt(b, |b| - 4), HalfWordAt(b, 0));
    Finish4To8Undone(Mult64To128(Xor64(x, k), p));
    Finish4To8Undone(Mult64To128(Xor64(y, k), p));
    LowWordIsProduct(Xor64(x, k), p);
    LowWordIsProduct(Xor64(y, k), p);
    MultiplierUndone(Xor64(x, k), |a|);
    MultiplierUndone(Xor64(y, k), |a|);
    XorSame(x, y, k);
    Input64Same(HalfWordAt(a, |a| - 4), HalfWordAt(a, 0), HalfWordAt(b, |b| - 4), HalfWordAt(b, 0));
    FourToEightWords(a, b);
  }

  // ---- Nine to sixteen bytes, of one length, 128-bit ----

  const SPREAD: nat := 0x85EBCA77
  const UNSPREAD: nat := 0xB6C92F47

  /** The multiplier has an inverse modulo 2^32. */
  lemma LowHalvesSame(h: nat, l: nat, h2: nat, l2: nat, wraps: int)
    requires l < TWO_32 && l2 < TWO_32
    requires h * TWO_32 + SPREAD * l == h2 * TWO_32 + SPREAD * l2 + wraps * TWO_64
    ensures l == l2
  {
    var d, z := l - l2, h2 - h + wraps * TWO_32;
    assert SPREAD * d == TWO_32 * z;
    assert UNSPREAD * SPREAD == 1604247758 * TWO_32 + 1;
    assert d == TWO_32 * (UNSPREAD * z - 1604247758 * d);
  }

  lemma SpreadConstant()
    ensures Num(LowHalf(0x85EBCA77 - 1)) == SPREAD - 1
  {
  }

  lemma SpreadNum(x: bv64)
    ensures var n := Num(HighHalf(x)) * TWO_32 + SPREAD * Num(LowHalf(x));
            Num(S128.Spread64(x)) == if n < TWO_64 then n else n - TWO_64
  {
    hide Num, LowHalf, HighHalf, Add64, Mult32To64;
    HalvesNum(x);
    SpreadConstant();
    Mult32Num(x, 0x85EBCA77 - 1);
    AddNum(x, Mult32To64(x, 0x85EBCA77 - 1));
  }

  lemma SpreadSame(x: bv64, y: bv64)
    requires S128.Spread64(x) == S128.Spread64(y)
    ensures x == y
  {
    hide Num, LowHalf, HighHalf, S128.Spread64;
    SpreadNum(x);
    SpreadNum(y);
    HalvesNum(x);
    HalvesNum(y);
    var (h, l, h2, l2) := (Num(HighHalf(x)), Num(LowHalf(x)), Num(HighHalf(y)), Num(LowHalf(y)));
    var n, n2 := h * TWO_32 + SPREAD * l, h2 * TWO_32 + SPREAD * l2;
    var wraps := (if n < TWO_64 then 0 else 1) - if n2 < TWO_64 then 0 else 1;
    LowHalvesSame(h, l, h2, l2, wraps);
    SameNum(x, y);
  }

  lemma MulPrime1Same(x: bv64, y: bv64)
    requires Mul64(x, 0x9E3779B185EBCA87) == Mul64(y, 0x9E3779B185EBCA87)
    ensures x == y
  {
    hide Mul64;
    Mul64ByPrime1(x);
    Mul64ByPrime1(y);
  }

  lemma MulPrime2Same(x: bv64, y: bv64)
    requires Mul64(x, 0xC2B2AE3D27D4EB4F) == Mul64(y, 0xC2B2AE3D27D4EB4F)
    ensures x == y
  {
    hide Mul64;
    Mul64ByPrime2(x);
    Mul64ByPrime2(y);
  }

  /** The last multiplication and the avalanches keep both words. */
  lemma Finish9To16Same(m: Hash128, n: Hash128)
    requires S128.Finish9To16(m) == S128.Finish9To16(n)
    ensures m == n
  {
    hide Avalanche, Add64, Mul64, Mult64To128;
    var p, q := Mult64To128(m.low64, 0xC2B2AE3D27D4EB4F), Mult64To128(n.low64, 0xC2B2AE3D27D4EB4F);
    AvalancheSame(p.low64, q.low64);
    LowWordIsProduct(m.low64, 0xC2B2AE3D27D4EB4F);
    LowWordIsProduct(n.low64, 0xC2B2AE3D27D4EB4F);
    MulPrime2Same(m.low64, n.low64);
    var u, v := Mul64(m.high64, 0xC2B2AE3D27D4EB4F), Mul64(n.high64, 0xC2B2AE3D27D4EB4F);
    AvalancheSame(Add64(p.high64, u), Add64(q.high64, v));
    AddSame(p.high64, u, v);
    MulPrime2Same(m.high64, n.high64);
  }

  /** So does everything before it: the two keyed words can be read off the 128 bits in the middle. */
  lemma Middle9To16Same(mixed: bv64, last: bv64, mixed2: bv64, last2: bv64, len: nat)
    requires len > 0 && S128.Middle9To16(mixed, last, len) == S128.Middle9To16(mixed2, last2, len)
    ensures mixed == mixed2 && last == last2
  {
    hide Xor64, Add64, Mul64, Mult64To128, Swap64, S128.Spread64, S128.ShiftLeft54, LengthWord64;
    var m, n := Mult64To128(mixed, 0x9E3779B185EBCA87), Mult64To128(mixed2, 0x9E3779B185EBCA87);
    var high, word := Add64(m.high64, S128.Spread64(last)), S128.ShiftLeft54(LengthWord64(len - 1));
    XorSame(Add64(m.low64, word), Add64(n.low64, word), Swap64(high));
    AddSwaps64(m.low64, word);
    AddSwaps64(n.low64, word);
    AddSame(word, m.low64, n.low64);
    LowWordIsProduct(mixed, 0x9E3779B185EBCA87);
    LowWordIsProduct(mixed2, 0x9E3779B185EBCA87);
    MulPrime1Same(mixed, mixed2);
    AddSame(m.high64, S128.Spread64(last), S128.Spread64(last2));
    SpreadSame(last, last2);
  }

  lemma NineToSixteen128(a: Bytes, b: Bytes, secret: Secret, seed: bv64)
    requires |a| == |b| && 9 <= |a| <= 16
    requires S128.Len9To16(a, secret, seed) == S128.Len9To16(b, secret, seed)
    ensures a == b
  {
    hide Xor64, ReadLE64, S128.Finish9To16, S128.Middle9To16, S128.BitFlipLow9To16, S128.BitFlipHigh9To16;
    var k, l := S128.BitFlipLow9To16(secret, seed), S128.BitFlipHigh9To16(secret, seed);
    var aLo, aHi, bLo, bHi := WordAt(a, 0), WordAt(a, |a| - 8), WordAt(b, 0), WordAt(b, |b| - 8);
    var p, q := Xor64(Xor64(aLo, aHi), k), Xor64(Xor64(bLo, bHi), k);
    Finish9To16Same(S128.Middle9To16(p, Xor64(aHi, l), |a|), S128.Middle9To16(q, Xor64(bHi, l), |a|));
    Middle9To16Same(p, Xor64(aHi, l), q, Xor64(bHi, l), |a|);
    XorSame(aHi, bHi, l);
    XorSame(Xor64(aLo, aHi), Xor64(bLo, bHi), k);
    XorSame(aLo, bLo, aHi);
    ReadSame64(a[0..8], b[0..8]);
    assert a[|a| - 8..] == a[|a| - 8..|a| - 8 + 8] && b[|b| - 8..] == b[|b| - 8..|b| - 8 + 8];
    ReadSame64(a[|a| - 8..], b[|b| - 8..]);
    TwoWindows(a, b, 8);
  }

  // ---- The theorems ----

  predicate Comparable(a: Bytes, b: Bytes, limit: nat) {
    (1 <= |a| <= 3 && 1 <= |b| <= 3) || (|a| == |b| <= limit)
  }

  /** No two different inputs of one to three bytes, and none of one length up to 8, share a 64-bit hash. */
  lemma NoCollision64(a: Bytes, b: Bytes, secret: Secret, seed: bv64)
    requires Comparable(a, b, 8)
    ensures S64.Short(a, secret, seed) == S64.Short(b, secret, seed) <==> a == b
  {
    hide S64.Len1To3, S64.Len4To8, S64.Len9To16, S64.Len17To128, S64.Len129To240, S64.Len0;
    if S64.Short(a, secret, seed) == S64.Short(b, secret, seed) {
      if 1 <= |a| <= 3 {
        OneToThree64(a, b, secret, seed);
      } else if |a| >= 4 {
        FourToEight64(a, b, secret, seed);
      }
    }
  }

  /** No two different inputs of one to three bytes, and none of one length up to 16, share a 128-bit hash. */
  lemma NoCollision128(a: Bytes, b: Bytes, secret: Secret, seed: bv64)
    requires Comparable(a, b, 16)
    ensures S128.Short(a, secret, seed) == S128.Short(b, secret, seed) <==> a == b
  {
    hide S128.Len1To3, S128.Len4To8, S128.Len9To16, S128.Len17To128, S128.Len129To240, S128.Len0;
    if S128.Short(a, secret, seed) == S128.Short(b, secret, seed) {
      if 1 <= |a| <= 3 {
        OneToThree128(a, b, secret, seed);
      } else if 4 <= |a| <= 8 {
        FourToEight128(a, b, secret, seed);
      } else if |a| > 8 {
        NineToSixteen128(a, b, secret, seed);
      }
    }
  }

  lemma ShortHash(k: Kernel, mode: Mode, input: Bytes)
    requires |input| <= 240
    ensures Hash(S64.Width64(), k, mode, input) == S64.Short(input, ShortKey(mode).0, ShortKey(mode).1)
    ensures Hash(S128.Width128(), k, mode, input) == S128.Short(input, ShortKey(mode).0, ShortKey(mode).1)
  {
    hide S64.Short, S128.Short, S64.FinalizeLong, S128.FinalizeLong, ShortKey, LongAcc;
  }

  /** The same of the public hashes, in every mode and whatever kernels they are built with. */
  lemma HashesTellApart(k: Kernel, mode: Mode, a: Bytes, b: Bytes)
    ensures Comparable(a, b, 8) ==> (Hash(S64.Width64(), k, mode, a) == Hash(S64.Width64(), k, mode, b) <==> a == b)
    ensures Comparable(a, b, 16) ==> (Hash(S128.Width128(), k, mode, a) == Hash(S128.Width128(), k, mode, b) <==> a == b)
  {
    hide S64.Short, S128.Short, S64.Width64, S128.Width128, Hash, ShortKey;
    var (secret, seed) := ShortKey(mode);
    if Comparable(a, b, 8) || Comparable(a, b, 16) {
      ShortHash(k, mode, a);
      ShortHash(k, mode, b);
    }
    if Comparable(a, b, 8) { NoCollision64(a, b, secret, seed); }
    if Comparable(a, b, 16) { NoCollision128(a, b, secret, seed); }
  }
}
