/** The 128-bit XXH3 of inputs up to 240 bytes, and the final step of longer ones. */
module Xxh3Short128 {
  import opened Mixing
  import opened Products
  import opened Words
  import opened Xxh3Mix
  import opened Xxh3OneShot
  import opened Xxh3Stripes
  import Xxh3Short64
  import Xxh64

  // ---- Up to 16 bytes ----

  function BitFlipHigh1To3(secret: Secret, seed: bv64): bv64 {
    Sub64(Widen32(Xor32(HalfWordAt(secret, 8), HalfWordAt(secret, 12))), seed)
  }

  function Len1To3(input: Bytes, secret: Secret, seed: bv64): Hash128
    requires 1 <= |input| <= 3
  {
    var combinedHigh := Rotl32(Swap32(Packed(input)), 13);
    Hash128(Xxh64.Avalanche(Xor64(Widen32(Packed(input)), Xxh3Short64.BitFlip1To3(secret, seed))),
            Xxh64.Avalanche(Xor64(Widen32(combinedHigh), BitFlipHigh1To3(secret, seed))))
  }

  function ShiftLeft1(x: bv64): bv64 { x << 1 }
  function ShiftLeft2(x: bv64): bv64 { x << 2 }
  function ShiftLeft54(x: bv64): bv64 { x << 54 }
  function ShiftRight3(x: bv64): bv64 { x >> 3 }

  /** An odd multiplier for every length. */
  function Multiplier(len: nat): bv64 {
    Add64(0x9E3779B185EBCA87, ShiftLeft2(LengthWord64(len)))
  }

  /** What follows the multiplication of a keyed word of four to eight bytes. */
  function Finish4To8(m: Hash128): Hash128 {
    var high := Add64(m.high64, ShiftLeft1(m.low64));
    var low := Xor64(m.low64, ShiftRight3(high));
    Hash128(XorShr64(Mul64(XorShr64(low, 35), 0x9FB21C651E98DF25), 28), Avalanche(high))
  }

  function BitFlip4To8(secret: Secret, seed: bv64): bv64 {
    Add64(Xor64(WordAt(secret, 16), WordAt(secret, 24)), SwapSeed(seed))
  }

  function Len4To8(input: Bytes, secret: Secret, seed: bv64): Hash128
    requires 4 <= |input| <= 8
  {
    var input64 := Xxh3Short64.Input64(HalfWordAt(input, |input| - 4), HalfWordAt(input, 0));
    Finish4To8(Mult64To128(Xor64(input64, BitFlip4To8(secret, seed)), Multiplier(|input|)))
  }

  function HighPart(x: bv64): bv64 { x & 0xFFFFFFFF00000000 }

  /** The last word's contribution as 32-bit builds compute it: its high half stays, its low half is multiplied. */
  function Spread32(x: bv64): bv64 {
    Add64(HighPart(x), Mult32To64(x, 0x85EBCA77))
  }

  /** The same as 64-bit builds compute it, without the mask. */
  function Spread64(x: bv64): bv64 {
    Add64(x, Mult32To64(x, 0x85EBCA77 - 1))
  }

  lemma HighPartIsDifference(x: bv64)
    ensures HighPart(x) == Sub64(x, LowHalf(x))
  {
    hide Add64, Sub64, HighPart, LowHalf;
    PartsSum(x);
    AddUndone64(HighPart(x), LowHalf(x));
  }

  lemma PartsSum(x: bv64)
    ensures Add64(HighPart(x), LowHalf(x)) == x
  {
  }

  function TimesPrime(x: bv64): bv64 { x * 0x85EBCA77 }
  function TimesPrimeLess1(x: bv64): bv64 { x * 0x85EBCA76 }

  lemma OneTimeLess(x: bv64, low: bv64)
    ensures Add64(x - low, low * 0x85EBCA77) == x + low * 0x85EBCA76
  {
  }

  lemma AsWritten(x: bv64, low: bv64)
    ensures Sub64(x, low) == x - low && Add64(x, low * 0x85EBCA76) == x + low * 0x85EBCA76
    ensures TimesPrime(low) == low * 0x85EBCA77 && TimesPrimeLess1(low) == low * 0x85EBCA76
  {
  }

  lemma SpreadSums(x: bv64, low: bv64)
    ensures Add64(Sub64(x, low), TimesPrime(low)) == Add64(x, TimesPrimeLess1(low))
  {
    hide Add64, Sub64, TimesPrime, TimesPrimeLess1;
    OneTimeLess(x, low);
    AsWritten(x, low);
  }

  lemma ProductOfMasked(x: bv64)
    ensures Mult32To64(x, 0x85EBCA77) == TimesPrime(LowHalf(x))
  {
    hide Mult32To64, Mul64, TimesPrime, LowHalf;
    HalvesProduct(x, 0x85EBCA77);
    PrimeHalves(LowHalf(x));
  }

  lemma PrimeHalves(low: bv64)
    ensures LowHalf(0x85EBCA77) == 0x85EBCA77 && LowHalf(0x85EBCA76) == 0x85EBCA76
    ensures Mul64(low, 0x85EBCA77) == TimesPrime(low) && Mul64(low, 0x85EBCA76) == TimesPrimeLess1(low)
  {
  }

  lemma ProductOfMaskedLess1(x: bv64)
    ensures Mult32To64(x, 0x85EBCA77 - 1) == TimesPrimeLess1(LowHalf(x))
  {
    hide Mult32To64, Mul64, TimesPrimeLess1, LowHalf;
    HalvesProduct(x, 0x85EBCA76);
    PrimeHalves(LowHalf(x));
  }

  /** The two formulas agree on every word. */
  lemma SpreadVariantsAgree(x: bv64)
    ensures Spread32(x) == Spread64(x)
  {
    hide Add64, Sub64, HighPart, LowHalf, Mult32To64, TimesPrime, TimesPrimeLess1;
    HighPartIsDifference(x);
    ProductOfMasked(x);
    ProductOfMaskedLess1(x);
    SpreadSums(x, LowHalf(x));
  }

  /** The keyed first product with the length in its middle and the spread of the last word on top. */
  function Middle9To16(mixed: bv64, last: bv64, len: nat): Hash128
    requires len > 0
  {
    var m := Mult64To128(mixed, 0x9E3779B185EBCA87);
    var high := Add64(m.high64, Spread64(last));
    Hash128(Xor64(Add64(m.low64, ShiftLeft54(LengthWord64(len - 1))), Swap64(high)), high)
  }

  /** The 128x64 multiplication and the avalanches at the end. */
  function Finish9To16(m: Hash128): Hash128 {
    var h := Mult64To128(m.low64, 0xC2B2AE3D27D4EB4F);
    Hash128(Avalanche(h.low64), Avalanche(Add64(h.high64, Mul64(m.high64, 0xC2B2AE3D27D4EB4F))))
  }

  function BitFlipLow9To16(secret: Secret, seed: bv64): bv64 {
    Sub64(Xor64(WordAt(secret, 32), WordAt(secret, 40)), seed)
  }

  function BitFlipHigh9To16(secret: Secret, seed: bv64): bv64 {
    Add64(Xor64(WordAt(secret, 48), WordAt(secret, 56)), seed)
  }

  function Len9To16(input: Bytes, secret: Secret, seed: bv64): Hash128
    requires 9 <= |input| <= 16
  {
    var inputLo, inputHi := WordAt(input, 0), WordAt(input, |input| - 8);
    Finish9To16(Middle9To16(Xor64(Xor64(inputLo, inputHi), BitFlipLow9To16(secret, seed)),
                            Xor64(inputHi, BitFlipHigh9To16(secret, seed)), |input|))
  }

  function Len0(secret: Secret, seed: bv64): Hash128 {
    Hash128(Xxh64.Avalanche(Xor64(seed, Xor64(WordAt(secret, 64), WordAt(secret, 72)))),
            Xxh64.Avalanche(Xor64(seed, Xor64(WordAt(secret, 80), WordAt(secret, 88)))))
  }

  function Len0To16(input: Bytes, secret: Secret, seed: bv64): Hash128
    requires |input| <= 16
  {
    if |input| > 8 then Len9To16(input, secret, seed)
    else if |input| >= 4 then Len4To8(input, secret, seed)
    else if |input| > 0 then Len1To3(input, secret, seed)
    else Len0(secret, seed)
  }

  // ---- 17 to 128 bytes ----

  /** Two sixteen-byte pieces, each mixed into one half and added raw into the other. */
  function Mix32B(acc: Hash128, input1: Bytes, input2: Bytes, secret: Bytes, seed: bv64): Hash128
    requires |input1| == 16 && |input2| == 16 && |secret| == 32
  {
    Hash128(Xor64(Add64(acc.low64, Mix16B(input1, secret[..16], seed)), Add64(WordAt(input2, 0), WordAt(input2, 8))),
            Xor64(Add64(acc.high64, Mix16B(input2, secret[16..], seed)), Add64(WordAt(input1, 0), WordAt(input1, 8))))
  }

  function Start(len: nat): Hash128 {
    Hash128(Xxh3Short64.StartWord(len), 0)
  }

  function MixPair(acc: Hash128, input: Bytes, secret: Secret, seed: bv64, i: nat): Hash128
    requires i < 4 && 16 * (i + 1) <= |input|
  {
    var back := |input| - 16 * (i + 1);
    Mix32B(acc, input[16 * i..16 * i + 16], input[back..back + 16], secret[32 * i..32 * i + 32], seed)
  }

  /** Pairs i, i - 1, ..., 0. */
  function MixPairs(acc: Hash128, input: Bytes, secret: Secret, seed: bv64, i: nat): Hash128
    requires i < 4 && 16 * (i + 1) <= |input|
    decreases i
  {
    var next := MixPair(acc, input, secret, seed, i);
    if i == 0 then next else MixPairs(next, input, secret, seed, i - 1)
  }

  /** The end that all medium inputs share. */
  function Finish(acc: Hash128, len: nat, seed: bv64): Hash128 {
    var low := Add64(acc.low64, acc.high64);
    var high := Add64(Add64(Mul64(acc.low64, 0x9E3779B185EBCA87), Mul64(acc.high64, 0x85EBCA77C2B2AE63)),
                      Mul64(Sub64(LengthWord64(len), seed), 0xC2B2AE3D27D4EB4F));
    Hash128(Avalanche(low), Sub64(0, Avalanche(high)))
  }

  function Len17To128(input: Bytes, secret: Secret, seed: bv64): Hash128
    requires 17 <= |input| <= 128
  {
    Finish(MixPairs(Start(|input|), input, secret, seed, (|input| - 1) / 32), |input|, seed)
  }

  /** The compact build: a loop that counts the pairs down. */
  method Len17To128Loop(input: Bytes, secret: Secret, seed: bv64) returns (h: Hash128)
    requires 17 <= |input| <= 128
    ensures h == Len17To128(input, secret, seed)
  {
    hide MixPair, Finish, Start;
    var i: nat := (|input| - 1) / 32;
    var acc := Start(|input|);
    while i > 0
      invariant i < 4 && 16 * (i + 1) <= |input|
      invariant MixPairs(acc, input, secret, seed, i)
                == MixPairs(Start(|input|), input, secret, seed, (|input| - 1) / 32)
    {
      acc := MixPair(acc, input, secret, seed, i);
      i := i - 1;
    }
    acc := MixPair(acc, input, secret, seed, 0);
    h := Finish(acc, |input|, seed);
  }

  /** The default build: the same pairs as nested branches on the length. */
  method Len17To128Unrolled(input: Bytes, secret: Secret, seed: bv64) returns (h: Hash128)
    requires 17 <= |input| <= 128
    ensures h == Len17To128(input, secret, seed)
  {
    hide Mix32B, Finish, Start;
    var len := |input|;
    var acc := Start(len);
    ghost var whole := MixPairs(acc, input, secret, seed, (len - 1) / 32);
    if len > 32 {
      if len > 64 {
        if len > 96 {
          acc := Mix32B(acc, input[48..64], input[len - 64..len - 48], secret[96..128], seed);
        }
        assert MixPairs(acc, input, secret, seed, 2) == whole;
        acc := Mix32B(acc, input[32..48], input[len - 48..len - 32], secret[64..96], seed);
      }
      assert MixPairs(acc, input, secret, seed, 1) == whole;
      acc := Mix32B(acc, input[16..32], input[len - 32..len - 16], secret[32..64], seed);
    }
    assert MixPairs(acc, input, secret, seed, 0) == whole;
    acc := Mix32B(acc, input[0..16], input[len - 16..len], secret[0..32], seed);
    h := Finish(acc, len, seed);
  }

  // ---- 129 to 240 bytes ----

  /** Round i of 32 bytes, its secret window at key. */
  function MixRound(acc: Hash128, input: Bytes, secret: Secret, seed: bv64, i: nat, key: nat): Hash128
    requires 32 * (i + 1) <= |input| && key + 32 <= |secret|
  {
    Mix32B(acc, input[32 * i..32 * i + 16], input[32 * i + 16..32 * i + 32], secret[key..key + 32], seed)
  }

  function FrontRounds(input: Bytes, secret: Secret, seed: bv64, n: nat): Hash128
    requires n <= 4 && 32 * n <= |input|
  {
    if n == 0 then Start(|input|) else MixRound(FrontRounds(input, secret, seed, n - 1), input, secret, seed, n - 1, 32 * (n - 1))
  }

  function AvalancheBoth(acc: Hash128): Hash128 {
    Hash128(Avalanche(acc.low64), Avalanche(acc.high64))
  }

  /** Rounds 4, 5, ..., n - 1, keyed from the fourth byte of the secret on. */
  function BackRounds(acc: Hash128, input: Bytes, secret: Secret, seed: bv64, n: nat): Hash128
    requires 4 <= n <= 7 && 32 * n <= |input|
    decreases n
  {
    if n == 4 then acc
    else MixRound(BackRounds(acc, input, secret, seed, n - 1), input, secret, seed, n - 1, 3 + 32 * (n - 5))
  }

  function Len129To240(input: Bytes, secret: Secret, seed: bv64): Hash128
    requires 129 <= |input| <= 240
  {
    var front := AvalancheBoth(FrontRounds(input, secret, seed, 4));
    var back := BackRounds(front, input, secret, seed, |input| / 32);
    var len := |input|;
    Finish(Mix32B(back, input[len - 16..], input[len - 32..len - 16], secret[103..135], Sub64(0, seed)), len, seed)
  }

  /** The two loops, whose counter is an offset of 32 past the bytes read: the second one runs
      while the counter does not pass the length, so whole 32-byte rounds and no more. */
  method Len129To240Loops(input: Bytes, secret: Secret, seed: bv64) returns (h: Hash128)
    requires 129 <= |input| <= 240
    ensures h == Len129To240(input, secret, seed)
  {
    hide Mix32B, Finish, Start, AvalancheBoth;
    var acc := Start(|input|);
    var i: nat := 32;
    while i < 160
      invariant 32 <= i <= 160 && i % 32 == 0
      invariant acc == FrontRounds(input, secret, seed, i / 32 - 1)
    {
      acc := Mix32B(acc, input[i - 32..i - 16], input[i - 16..i], secret[i - 32..i], seed);
      i := i + 32;
    }
    acc := AvalancheBoth(acc);
    ghost var front := acc;
    i := 160;
    while i <= |input|
      invariant 160 <= i <= |input| + 32 && i % 32 == 0
      invariant acc == BackRounds(front, input, secret, seed, i / 32 - 1)
    {
      acc := Mix32B(acc, input[i - 32..i - 16], input[i - 16..i], secret[3 + i - 160..3 + i - 160 + 32], seed);
      i := i + 32;
    }
    var len := |input|;
    acc := Mix32B(acc, input[len - 16..], input[len - 32..len - 16], secret[136 - 17 - 16..136 - 17 - 16 + 32], Sub64(0, seed));
    h := Finish(acc, len, seed);
  }

  /** The hash of an input that is not long. */
  function Short(input: ShortInput, secret: Secret, seed: bv64): Hash128 {
    if |input| <= 16 then Len0To16(input, secret, seed)
    else if |input| <= 128 then Len17To128(input, secret, seed)
    else Len129To240(input, secret, seed)
  }

  // ---- Long inputs ----

  function Complement(x: bv64): bv64 { !x }

  /** The low word is the 64-bit hash; the high word condenses the lanes again, keyed from the secret's end. */
  function FinalizeLong(acc: Acc, secret: Secret, len: bv64): Hash128 {
    Hash128(Xxh3Short64.FinalizeLong(acc, secret, len),
            Xxh3Short64.MergeAccs(acc, secret[|secret| - 75..|secret| - 11], Complement(Mul64(len, 0xC2B2AE3D27D4EB4F))))
  }

  /** The 128-bit hash as an instance of the streaming and one-shot code. */
  function Width128(): Width<Hash128> {
    Width((input: ShortInput, secret: Secret, seed: bv64) => Short(input, secret, seed),
          (acc: Acc, secret: Secret, len: bv64) => FinalizeLong(acc, secret, len))
  }
}
