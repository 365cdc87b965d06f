/** The 64-bit XXH3 of inputs up to 240 bytes, and the final step of longer ones. */
module Xxh3Short64 {
  import opened Mixing
  import opened Words
  import opened Xxh3Mix
  import opened Xxh3OneShot
  import opened Xxh3Stripes
  import Xxh64

  // ---- Up to 16 bytes ----

  function BitFlip1To3(secret: Secret, seed: bv64): bv64 {
    Add64(Widen32(Xor32(HalfWordAt(secret, 0), HalfWordAt(secret, 4))), seed)
  }

  function Len1To3(input: Bytes, secret: Secret, seed: bv64): bv64
    requires 1 <= |input| <= 3
  {
    Xxh64.Avalanche(Xor64(Widen32(Packed(input)), BitFlip1To3(secret, seed)))
  }

  /** The first four bytes over the last four, which overlap when there are fewer than eight. */
  function Input64(first: bv32, last: bv32): bv64 {
    (last as bv64) + ((first as bv64) * 0x1_0000_0000)
  }

  function BitFlip4To8(secret: Secret, seed: bv64): bv64 {
    Sub64(Xor64(WordAt(secret, 8), WordAt(secret, 16)), SwapSeed(seed))
  }

  function Len4To8(input: Bytes, secret: Secret, seed: bv64): bv64
    requires 4 <= |input| <= 8
  {
    var input64 := Input64(HalfWordAt(input, 0), HalfWordAt(input, |input| - 4));
    Rrmxmx(Xor64(input64, BitFlip4To8(secret, seed)), LengthWord64(|input|))
  }

  function Len9To16(input: Bytes, secret: Secret, seed: bv64): bv64
    requires 9 <= |input| <= 16
  {
    var inputLo := Xor64(WordAt(input, 0), Add64(Xor64(WordAt(secret, 24), WordAt(secret, 32)), seed));
    var inputHi := Xor64(WordAt(input, |input| - 8), Sub64(Xor64(WordAt(secret, 40), WordAt(secret, 48)), seed));
    Avalanche(Add64(Add64(Add64(LengthWord64(|input|), Swap64(inputLo)), inputHi), Mul128Fold64(inputLo, inputHi)))
  }

  function Len0(secret: Secret, seed: bv64): bv64 {
    Xxh64.Avalanche(Xor64(seed, Xor64(WordAt(secret, 56), WordAt(secret, 64))))
  }

  function Len0To16(input: Bytes, secret: Secret, seed: bv64): bv64
    requires |input| <= 16
  {
    if |input| > 8 then Len9To16(input, secret, seed)
    else if |input| >= 4 then Len4To8(input, secret, seed)
    else if |input| > 0 then Len1To3(input, secret, seed)
    else Len0(secret, seed)
  }

  // ---- 17 to 128 bytes ----

  function StartWord(len: nat): bv64 {
    Mul64(LengthWord64(len), 0x9E3779B185EBCA87)
  }

  /** One pair: sixteen bytes from the front and the sixteen that mirror them at the back. */
  function MixPair(acc: bv64, input: Bytes, secret: Secret, seed: bv64, i: nat): bv64
    requires i < 4 && 16 * (i + 1) <= |input|
  {
    var back := |input| - 16 * (i + 1);
    Add64(Add64(acc, Mix16B(input[16 * i..16 * i + 16], secret[32 * i..32 * i + 16], seed)),
          Mix16B(input[back..back + 16], secret[32 * i + 16..32 * i + 32], seed))
  }

  /** Pairs i, i - 1, ..., 0. */
  function MixPairs(acc: bv64, input: Bytes, secret: Secret, seed: bv64, i: nat): bv64
    requires i < 4 && 16 * (i + 1) <= |input|
    decreases i
  {
    var next := MixPair(acc, input, secret, seed, i);
    if i == 0 then next else MixPairs(next, input, secret, seed, i - 1)
  }

  lemma MixPairsStep(acc: bv64, input: Bytes, secret: Secret, seed: bv64, i: nat)
    requires i < 4 && 16 * (i + 1) <= |input|
    ensures var next := MixPair(acc, input, secret, seed, i);
            MixPairs(acc, input, secret, seed, i) == if i == 0 then next else MixPairs(next, input, secret, seed, i - 1)
  {
  }

  function Len17To128(input: Bytes, secret: Secret, seed: bv64): bv64
    requires 17 <= |input| <= 128
  {
    Avalanche(MixPairs(StartWord(|input|), input, secret, seed, (|input| - 1) / 32))
  }

  /** The compact build: a loop that counts the pairs down. */
  method Len17To128Loop(input: Bytes, secret: Secret, seed: bv64) returns (h: bv64)
    requires 17 <= |input| <= 128
    ensures h == Len17To128(input, secret, seed)
  {
    hide MixPair, Avalanche, StartWord;
    var i: nat := (|input| - 1) / 32;
    var acc := StartWord(|input|);
    while i > 0
      invariant i < 4 && 16 * (i + 1) <= |input|
      invariant MixPairs(acc, input, secret, seed, i)
                == MixPairs(StartWord(|input|), input, secret, seed, (|input| - 1) / 32)
    {
      acc := MixPair(acc, input, secret, seed, i);
      i := i - 1;
    }
    acc := MixPair(acc, input, secret, seed, 0);
    h := Avalanche(acc);
  }

  /** The default build: the same pairs as nested branches on the length. */
  method Len17To128Unrolled(input: Bytes, secret: Secret, seed: bv64) returns (h: bv64)
    requires 17 <= |input| <= 128
    ensures h == Len17To128(input, secret, seed)
  {
    hide Mix16B, Avalanche, StartWord, MixPairs;
    var len := |input|;
    var acc := StartWord(len);
    ghost var whole := MixPairs(acc, input, secret, seed, (len - 1) / 32);
    if len > 32 {
      if len > 64 {
        if len > 96 {
          MixPairsStep(acc, input, secret, seed, 3);
          acc := Add64(acc, Mix16B(input[48..64], secret[96..112], seed));
          acc := Add64(acc, Mix16B(input[len - 64..len - 48], secret[112..128], seed));
        }
        assert MixPairs(acc, input, secret, seed, 2) == whole;
        MixPairsStep(acc, input, secret, seed, 2);
        acc := Add64(acc, Mix16B(input[32..48], secret[64..80], seed));
        acc := Add64(acc, Mix16B(input[len - 48..len - 32], secret[80..96], seed));
      }
      assert MixPairs(acc, input, secret, seed, 1) == whole;
      MixPairsStep(acc, input, secret, seed, 1);
      acc := Add64(acc, Mix16B(input[16..32], secret[32..48], seed));
      acc := Add64(acc, Mix16B(input[len - 32..len - 16], secret[48..64], seed));
    }
    assert MixPairs(acc, input, secret, seed, 0) == whole;
    MixPairsStep(acc, input, secret, seed, 0);
    acc := Add64(acc, Mix16B(input[0..16], secret[0..16], seed));
    acc := Add64(acc, Mix16B(input[len - 16..len], secret[16..32], seed));
    h := Avalanche(acc);
  }

  // ---- 129 to 240 bytes ----

  /** One round: sixteen bytes of the input and a secret window that moves with the round from its own start. */
  function MixRound(acc: bv64, input: Bytes, secret: Secret, seed: bv64, first: nat, key: nat, i: nat): bv64
    requires first <= i && 16 * (i + 1) <= |input| && key + 16 * (i + 1 - first) <= |secret|
  {
    var at := key + 16 * (i - first);
    Add64(acc, Mix16B(input[16 * i..16 * i + 16], secret[at..at + 16], seed))
  }

  /** Rounds first, first + 1, ..., n - 1. */
  function MixRounds(acc: bv64, input: Bytes, secret: Secret, seed: bv64, first: nat, key: nat, n: nat): bv64
    requires first <= n && 16 * n <= |input| && key + 16 * (n - first) <= |secret|
    decreases n
  {
    if n == first then acc
    else MixRound(MixRounds(acc, input, secret, seed, first, key, n - 1), input, secret, seed, first, key, n - 1)
  }

  function Len129To240(input: Bytes, secret: Secret, seed: bv64): bv64
    requires 129 <= |input| <= 240
  {
    var acc := Avalanche(MixRounds(StartWord(|input|), input, secret, seed, 0, 0, 8));
    var last := Mix16B(input[|input| - 16..], secret[119..135], seed);
    Avalanche(Add64(acc, MixRounds(last, input, secret, seed, 8, 3, |input| / 16)))
  }

  /** Two loops: eight rounds before a first avalanche, the rest after it. */
  method Len129To240Loops(input: Bytes, secret: Secret, seed: bv64) returns (h: bv64)
    requires 129 <= |input| <= 240
    ensures h == Len129To240(input, secret, seed)
  {
    hide Mix16B, Avalanche, StartWord, Add64;
    var acc := StartWord(|input|);
    var nbRounds := |input| / 16;
    for i := 0 to 8
      invariant acc == MixRounds(StartWord(|input|), input, secret, seed, 0, 0, i)
    {
      acc := Add64(acc, Mix16B(input[16 * i..16 * i + 16], secret[16 * i..16 * i + 16], seed));
    }
    var accEnd := Mix16B(input[|input| - 16..], secret[136 - 17..136 - 17 + 16], seed);
    ghost var last := accEnd;
    acc := Avalanche(acc);
    for i := 8 to nbRounds
      invariant accEnd == MixRounds(last, input, secret, seed, 8, 3, i)
    {
      accEnd := Add64(accEnd, Mix16B(input[16 * i..16 * i + 16], secret[16 * (i - 8) + 3..16 * (i - 8) + 3 + 16], seed));
    }
    h := Avalanche(Add64(acc, accEnd));
  }

  /** The hash of an input that is not long. */
  function Short(input: ShortInput, secret: Secret, seed: bv64): bv64 {
    if |input| <= 16 then Len0To16(input, secret, seed)
    else if |input| <= 128 then Len17To128(input, secret, seed)
    else Len129To240(input, secret, seed)
  }

  // ---- Long inputs ----

  function Mix2Accs(lo: bv64, hi: bv64, secret: Bytes): bv64
    requires |secret| >= 16
  {
    Mul128Fold64(Xor64(lo, WordAt(secret, 0)), Xor64(hi, WordAt(secret, 8)))
  }

  /** The eight lanes condensed, two at a time. */
  function MergeLanes(acc: Acc, secret: Stripe, start: bv64, n: nat): bv64
    requires n <= 4
  {
    if n == 0 then start
    else Add64(MergeLanes(acc, secret, start, n - 1),
               Mix2Accs(acc[2 * (n - 1)], acc[2 * (n - 1) + 1], secret[16 * (n - 1)..16 * n]))
  }

  function MergeAccs(acc: Acc, secret: Stripe, start: bv64): bv64 {
    Avalanche(MergeLanes(acc, secret, start, 4))
  }

  lemma MergeNone(acc: Acc, secret: Stripe, start: bv64)
    ensures MergeLanes(acc, secret, start, 0) == start
  {
  }

  lemma MergeNext(acc: Acc, secret: Stripe, start: bv64, n: nat)
    requires n < 4
    ensures MergeLanes(acc, secret, start, n + 1)
            == Add64(MergeLanes(acc, secret, start, n), Mix2Accs(acc[2 * n], acc[2 * n + 1], secret[16 * n..16 * (n + 1)]))
  {
    hide Mix2Accs, Add64;
  }

  method MergeAccsLoop(acc: array<bv64>, secret: Stripe, start: bv64) returns (h: bv64)
    requires acc.Length == 8
    ensures h == MergeAccs(acc[..], secret, start)
  {
    hide Mix2Accs, Avalanche, MergeLanes, Add64;
    MergeNone(acc[..], secret, start);
    var result := start;
    for i := 0 to 4
      invariant result == MergeLanes(acc[..], secret, start, i)
    {
      MergeNext(acc[..], secret, start, i);
      result := Add64(result, Mix2Accs(acc[2 * i], acc[2 * i + 1], secret[16 * i..16 * (i + 1)]));
    }
    h := Avalanche(result);
  }

  function FinalizeLong(acc: Acc, secret: Secret, len: bv64): bv64 {
    MergeAccs(acc, secret[11..75], Mul64(len, 0x9E3779B185EBCA87))
  }

  /** The 64-bit hash as an instance of the streaming and one-shot code. */
  function Width64(): Width<bv64> {
    Width((input: ShortInput, secret: Secret, seed: bv64) => Short(input, secret, seed),
          (acc: Acc, secret: Secret, len: bv64) => FinalizeLong(acc, secret, len))
  }
}
