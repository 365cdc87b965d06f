/** What the 64-bit and the 128-bit XXH3 of a long input are, over the numbers that the words stand for. */
module Xxh3Long {
  import opened Mixing
  import opened Products
  import opened Words
  import opened Xxh3Evaluation
  import opened Xxh3Kernels
  import opened Xxh3Mix
  import opened Xxh3OneShot
  import opened Xxh3Stripes
  import S64 = Xxh3Short64
  import S128 = Xxh3Short128
  import SignedWords

  // ---- Words and numbers ----

  /** Every number below 2^64 is that of a word. */
  lemma {:induction false} SomeWord(n: nat) returns (w: bv64)
    requires n < TWO_64
    ensures Num(w) == n
  {
    hide Num, Add64;
    OneNum();
    if n == 0 {
      w := 0;
    } else {
      var before := SomeWord(n - 1);
      w := Add64(before, 1);
      AddNum(before, 1);
    }
  }

  lemma IsWord(x: bv64, n: nat)
    requires n < TWO_64 && Num(x) == n
    ensures x == Word(n)
  {
    hide Num, Word;
    WordOfNum(x);
  }

  lemma NumOfWord(n: nat)
    requires n < TWO_64
    ensures Num(Word(n)) == n
  {
    hide Num, Word;
    var w := SomeWord(n);
    IsWord(w, n);
  }

  lemma Lengths(len: nat)
    ensures LengthWord64(len) == Word(Wrap64(len))
  {
    hide Wrap64;
  }

  lemma LengthNum(len: nat)
    ensures Num(LengthWord64(len)) == len % TWO_64
  {
    hide Num, Word, LengthWord64;
    Lengths(len);
    NumOfWord(Wrap64(len));
  }

  lemma SumMod(x: nat, y: nat, z: nat)
    requires x == y % TWO_64
    ensures (x + z) % TWO_64 == (y + z) % TWO_64
  {
    var q := y / TWO_64;
    assert y + z == (x + z) + q * TWO_64;
  }

  lemma AddMod(x: bv64, y: bv64)
    ensures Num(Add64(x, y)) == (Num(x) + Num(y)) % TWO_64
  {
    hide Num, Add64;
    AddNum(x, y);
    NumBelow(x);
    NumBelow(y);
  }

  // ---- Folds ----

  /** The low word of a product xored with its high word. */
  ghost function Folded(product: int): bv64 {
    Xor64(Word(product % TWO_64), Word((product / TWO_64) % TWO_64))
  }

  lemma Digits(n: nat, low: nat, high: nat)
    requires n == low + TWO_64 * high && low < TWO_64 && high < TWO_64
    ensures low == n % TWO_64 && high == (n / TWO_64) % TWO_64
  {
  }

  /** The fold of two words is that of the exact product of their numbers. */
  lemma FoldNum(x: bv64, y: bv64)
    ensures Mul128Fold64(x, y) == Folded(Num(x) * Num(y))
  {
    hide Num, Word, Mult64To128, Xor64;
    MultIsExact(x, y);
    var p := Mult64To128(x, y);
    NumBelow(p.low64);
    NumBelow(p.high64);
    Digits(Num(x) * Num(y), Num(p.low64), Num(p.high64));
    IsWord(p.low64, Num(p.low64));
    IsWord(p.high64, Num(p.high64));
  }

  /** The i-th fold of eight lanes keyed from a place of the secret, as a number. */
  ghost function PairFold(acc: Acc, secret: Secret, at: nat, i: nat): nat
    requires i < 4 && at + 64 <= |secret|
  {
    var x, y := Xor64(acc[2 * i], WordAt(secret, at + 16 * i)), Xor64(acc[2 * i + 1], WordAt(secret, at + 16 * i + 8));
    Num(Folded(Num(x) * Num(y)))
  }

  ghost function FoldsSum(acc: Acc, secret: Secret, at: nat): nat
    requires at + 64 <= |secret|
  {
    PairFold(acc, secret, at, 0) + PairFold(acc, secret, at, 1) + PairFold(acc, secret, at, 2) + PairFold(acc, secret, at, 3)
  }

  lemma FoldAtNum(acc: Acc, secret: Secret, at: nat, i: nat)
    requires i < 4 && at + 64 <= |secret|
    ensures Num(FoldAt(acc, secret, at, i)) == PairFold(acc, secret, at, i)
  {
    hide Num, Folded, Mul128Fold64, Xor64, WordAt;
    FoldNum(Xor64(acc[2 * i], WordAt(secret, at + 16 * i)), Xor64(acc[2 * i + 1], WordAt(secret, at + 16 * i + 8)));
  }

  lemma NextSum(sum: bv64, total: nat, x: bv64)
    requires Num(sum) == total % TWO_64
    ensures Num(Add64(sum, x)) == (total + Num(x)) % TWO_64
  {
    hide Num, Add64;
    AddMod(sum, x);
    SumMod(Num(sum), total, Num(x));
  }

  lemma FourSums(start: bv64, a: bv64, b: bv64, c: bv64, d: bv64)
    ensures Num(Add64(Add64(Add64(Add64(start, a), b), c), d)) == (Num(start) + Num(a) + Num(b) + Num(c) + Num(d)) % TWO_64
  {
    hide Num, Add64;
    var s1 := Add64(start, a);
    var s2 := Add64(s1, b);
    AddMod(start, a);
    NextSum(s1, Num(start) + Num(a), b);
    NextSum(s2, Num(start) + Num(a) + Num(b), c);
    NextSum(Add64(s2, c), Num(start) + Num(a) + Num(b) + Num(c), d);
  }

  /** Condensing the lanes: the start and the four folds, added up modulo 2^64, and the avalanche. */
  lemma MergedNum(acc: Acc, secret: Secret, at: nat, start: bv64)
    requires at + 64 <= |secret|
    ensures MergedFrom(acc, secret, at, start) == Avalanche(Word((Num(start) + FoldsSum(acc, secret, at)) % TWO_64))
  {
    hide Num, Word, Add64, Avalanche, FoldAt, PairFold;
    var (a, b, c, d) := (FoldAt(acc, secret, at, 0), FoldAt(acc, secret, at, 1), FoldAt(acc, secret, at, 2), FoldAt(acc, secret, at, 3));
    FoldAtNum(acc, secret, at, 0);
    FoldAtNum(acc, secret, at, 1);
    FoldAtNum(acc, secret, at, 2);
    FoldAtNum(acc, secret, at, 3);
    FourSums(start, a, b, c, d);
    var total := Add64(Add64(Add64(Add64(start, a), b), c), d);
    NumBelow(total);
    IsWord(total, Num(total));
  }

  // ---- The two starts ----

  lemma FirstPrimeNum()
    ensures Num(0x9E3779B185EBCA87) == 0x9E3779B185EBCA87
  {
  }

  lemma SecondPrimeNum()
    ensures Num(0xC2B2AE3D27D4EB4F) == 0xC2B2AE3D27D4EB4F
  {
  }

  lemma StartNum(len: nat)
    ensures Num(Mul64(LengthWord64(len), 0x9E3779B185EBCA87)) == (len * 0x9E3779B185EBCA87) % TWO_64
    ensures Num(Mul64(LengthWord64(len), 0xC2B2AE3D27D4EB4F)) == (len * 0xC2B2AE3D27D4EB4F) % TWO_64
  {
    hide Num, Mul64, LengthWord64;
    var word := LengthWord64(len);
    LengthNum(len);
    FirstPrimeNum();
    SecondPrimeNum();
    MulNum(word, 0x9E3779B185EBCA87);
    MulNum(word, 0xC2B2AE3D27D4EB4F);
    SignedWords.ModTimes(len, 0x9E3779B185EBCA87, TWO_64);
    SignedWords.ModTimes(len, 0xC2B2AE3D27D4EB4F, TWO_64);
  }

  lemma ComplementIsNot(x: bv64)
    ensures S128.Complement(x) == SignedWords.Not64(x)
  {
  }

  lemma ComplementNum(x: bv64)
    ensures Num(S128.Complement(x)) == TWO_64 - 1 - Num(x)
  {
    hide Num, SignedWords.Not64, S128.Complement;
    ComplementIsNot(x);
    SignedWords.NotNum(x);
  }

  // ---- The lanes ----

  lemma LowPart(n: nat, high: nat, low: nat)
    requires n == high * TWO_32 + low && low < TWO_32
    ensures high == n / TWO_32 && low == n % TWO_32
  {
  }

  lemma HalvesAre(x: bv64)
    ensures Num(LowHalf(x)) == Num(x) % TWO_32 && Num(HighHalf(x)) == Num(x) / TWO_32
  {
    hide Num, LowHalf, HighHalf;
    HalvesNum(x);
    LowPart(Num(x), Num(HighHalf(x)), Num(LowHalf(x)));
  }

  /** A lane gains its neighbour's word and the product of the halves of its own keyed word, modulo 2^64. */
  lemma LaneNum(acc: Acc, stripe: Stripe, key: Stripe, i: nat)
    requires i < 8
    ensures var keyed := Num(Xor64(Lane(stripe, i), Lane(key, i)));
            Num(AccumulateLanes(acc, stripe, key)[i])
            == (Num(acc[i]) + Num(Lane(stripe, Partner(i))) + (keyed % TWO_32) * (keyed / TWO_32)) % TWO_64
  {
    hide Num, Lane, Xor64, Add64, Mult32To64, LowHalf, HighHalf;
    var x := Xor64(Lane(stripe, i), Lane(key, i));
    var sum := Add64(acc[i], Lane(stripe, Partner(i)));
    var product := Mult32To64(x, HighHalf(x));
    HalvesAre(x);
    LowOfHalf(x);
    Mult32Num(x, HighHalf(x));
    AddMod(acc[i], Lane(stripe, Partner(i)));
    NextSum(sum, Num(acc[i]) + Num(Lane(stripe, Partner(i))), product);
  }

  lemma TimesPrimeUndone(x: bv64)
    ensures Mul64(TimesPrime32(x), 0xCFA4A56B0E8B2F51) == x
  {
    assert Mul64(x * 0x9E3779B1, 0xCFA4A56B0E8B2F51) == x;
  }

  lemma InverseNum()
    ensures Num(0xCFA4A56B0E8B2F51) == 0xCFA4A56B0E8B2F51
  {
  }

  /** The two constants multiply to 1 + 2153028908 * 2^64. */
  lemma UndoneMod(t: nat, x: nat)
    requires t < TWO_64 && x == (t * 0xCFA4A56B0E8B2F51) % TWO_64
    ensures t == (x * 0x9E3779B1) % TWO_64
  {
    var q := t * 0xCFA4A56B0E8B2F51 / TWO_64;
    SignedWords.DivUnique(x * 0x9E3779B1, TWO_64, t * 2153028908 - q * 0x9E3779B1, t);
  }

  lemma TimesPrimeNum(x: bv64)
    ensures Num(TimesPrime32(x)) == (Num(x) * 0x9E3779B1) % TWO_64
  {
    hide Num, Mul64, TimesPrime32;
    var t := TimesPrime32(x);
    TimesPrimeUndone(x);
    InverseNum();
    MulNum(t, 0xCFA4A56B0E8B2F51);
    NumBelow(t);
    UndoneMod(Num(t), Num(x));
  }

  /** After a block each lane, folded onto itself and keyed, is multiplied by a prime modulo 2^64. */
  lemma ScrambledNum(acc: Acc, key: Stripe, i: nat)
    requires i < 8
    ensures Num(ScrambleLanes(acc, key)[i]) == (Num(Xor64(XorShift47(acc[i]), Lane(key, i))) * 0x9E3779B1) % TWO_64
  {
    hide Num, Lane, Xor64, XorShift47, TimesPrime32;
    TimesPrimeNum(Xor64(XorShift47(acc[i]), Lane(key, i)));
  }

  // ---- The hashes ----

  /** The 64-bit hash of a long input: the length times a prime and four folded products keyed from byte 11 of the
      secret, added up modulo 2^64, and the avalanche. */
  lemma LongHash64Num(k: Kernel, mode: Mode, data: Bytes)
    requires |data| > 240
    ensures var (secret, acc) := (LongSecret(mode), LongAcc(k, LongSecret(mode), data));
            Hash(S64.Width64(), k, mode, data) == Avalanche(Word((|data| * 0x9E3779B185EBCA87 + FoldsSum(acc, secret, 11)) % TWO_64))
  {
    hide LongAcc, LongSecret, Num, Word, Avalanche, Mul64, LengthWord64, FoldsSum, MergedFrom, S64.Short, S64.MergeAccs, Hash;
    var (secret, acc) := (LongSecret(mode), LongAcc(k, LongSecret(mode), data));
    var start := Mul64(LengthWord64(|data|), 0x9E3779B185EBCA87);
    LongHash64(k, mode, data, acc);
    MergedNum(acc, secret, 11, start);
    StartNum(|data|);
    SumMod(Num(start), |data| * 0x9E3779B185EBCA87, FoldsSum(acc, secret, 11));
  }

  /** The 128-bit hash of a long input: the same low word, and a high word from the complement of the length times another
      prime and the folds keyed from 75 bytes before the secret's end. */
  lemma LongHash128Num(k: Kernel, mode: Mode, data: Bytes)
    requires |data| > 240
    ensures var (secret, acc) := (LongSecret(mode), LongAcc(k, LongSecret(mode), data));
            var h := Hash(S128.Width128(), k, mode, data);
            && h.low64 == Avalanche(Word((|data| * 0x9E3779B185EBCA87 + FoldsSum(acc, secret, 11)) % TWO_64))
            && h.high64 == Avalanche(Word((TWO_64 - 1 - (|data| * 0xC2B2AE3D27D4EB4F) % TWO_64 + FoldsSum(acc, secret, |secret| - 75)) % TWO_64))
  {
    hide LongAcc, LongSecret, Num, Word, Avalanche, Mul64, LengthWord64, FoldsSum, MergedFrom, S128.Short, S64.MergeAccs, S128.Complement, Hash;
    var (secret, acc) := (LongSecret(mode), LongAcc(k, LongSecret(mode), data));
    var start := Mul64(LengthWord64(|data|), 0x9E3779B185EBCA87);
    LongHash128(k, mode, data, acc);
    MergedNum(acc, secret, 11, start);
    StartNum(|data|);
    SumMod(Num(start), |data| * 0x9E3779B185EBCA87, FoldsSum(acc, secret, 11));
    var second := Mul64(LengthWord64(|data|), 0xC2B2AE3D27D4EB4F);
    ComplementNum(second);
    MergedNum(acc, secret, |secret| - 75, S128.Complement(second));
  }
}
