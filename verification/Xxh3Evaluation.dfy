/** XXH3 as operations on words: what the hashes compute from the words of their input and of their secret. */
module Xxh3Evaluation {
  import opened Mixing
  import opened Products
  import opened Words
  import opened Xxh3Kernels
  import opened Xxh3Mix
  import opened Xxh3OneShot
  import opened Xxh3Stripes
  import S64 = Xxh3Short64
  import S128 = Xxh3Short128

  // ---- Words of sequences ----

  lemma SliceOfSlice(s: Bytes, a: nat, b: nat, c: nat, d: nat)
    requires a <= b <= |s| && c <= d <= b - a
    ensures s[a..b][c..d] == s[a + c..a + d]
  {
    var t, u := s[a..b][c..d], s[a + c..a + d];
    assert |t| == |u|;
    assert forall i :: 0 <= i < |t| ==> t[i] == u[i];
  }

  lemma WordOfSlice(s: Bytes, a: nat, b: nat, at: nat)
    requires a + at + 8 <= b <= |s|
    ensures WordAt(s[a..b], at) == WordAt(s, a + at)
  {
    hide ReadLE64;
    SliceOfSlice(s, a, b, at, at + 8);
  }

  lemma WordOfFirst(s: Bytes, t: Bytes, at: nat)
    requires at + 8 <= |s|
    ensures WordAt(s + t, at) == WordAt(s, at)
  {
    hide ReadLE64;
    assert (s + t)[at..at + 8] == s[at..at + 8];
  }

  lemma WordOfSecond(s: Bytes, t: Bytes, at: nat)
    requires at + 8 <= |t|
    ensures WordAt(s + t, |s| + at) == WordAt(t, at)
  {
    hide ReadLE64;
    assert (s + t)[|s| + at..|s| + at + 8] == t[at..at + 8];
  }

  function Low(x: bv64): bv32 { (x & 0xFFFFFFFF) as bv32 }

  lemma HalvesRead(s: Bytes)
    requires |s| == 8
    ensures ReadLE32(s[..4]) == Low(ReadLE64(s))
  {
  }

  lemma HalfOfWord(s: Bytes, at: nat)
    requires at + 8 <= |s|
    ensures HalfWordAt(s, at) == Low(WordAt(s, at))
  {
    hide ReadLE32, ReadLE64, Low;
    HalvesRead(s[at..at + 8]);
    assert s[at..at + 8][..4] == s[at..at + 4];
  }

  function Upper32(x: bv64): bv32 { (x >> 32) as bv32 }

  lemma UpperRead(s: Bytes)
    requires |s| == 8
    ensures ReadLE32(s[4..]) == Upper32(ReadLE64(s))
  {
  }

  lemma UpperHalfOfWord(s: Bytes, at: nat)
    requires at + 8 <= |s|
    ensures HalfWordAt(s, at + 4) == Upper32(WordAt(s, at))
  {
    hide ReadLE32, ReadLE64, Upper32;
    UpperRead(s[at..at + 8]);
    assert s[at..at + 8][4..] == s[at + 4..at + 4 + 4];
  }

  lemma WordOfPrefix(s: Bytes, b: nat, at: nat)
    requires at + 8 <= b <= |s|
    ensures WordAt(s[..b], at) == WordAt(s, at)
  {
    hide ReadLE64;
    assert s[..b][at..at + 8] == s[at..at + 8];
  }

  // Words that lie across two others.

  function Joined1(x: bv64, y: bv64): bv64 { (x >> 8) | (y << 56) }
  function Joined3(x: bv64, y: bv64): bv64 { (x >> 24) | (y << 40) }
  function Joined5(x: bv64, y: bv64): bv64 { (x >> 40) | (y << 24) }
  function Joined7(x: bv64, y: bv64): bv64 { (x >> 56) | (y << 8) }

  lemma Straddled1(t: Bytes)
    requires |t| == 16
    ensures ReadLE64(t[1..9]) == Joined1(ReadLE64(t[..8]), ReadLE64(t[8..]))
  {
  }

  lemma Straddle1(s: Bytes, at: nat)
    requires at + 16 <= |s|
    ensures WordAt(s, at + 1) == Joined1(WordAt(s, at), WordAt(s, at + 8))
  {
    hide ReadLE64, Joined1;
    Straddled1(s[at..at + 16]);
    HalvesOf(s, at);
    SliceOfSlice(s, at, at + 16, 1, 9);
  }

  lemma Straddled3(t: Bytes)
    requires |t| == 16
    ensures ReadLE64(t[3..11]) == Joined3(ReadLE64(t[..8]), ReadLE64(t[8..]))
  {
  }

  lemma Straddle3(s: Bytes, at: nat)
    requires at + 16 <= |s|
    ensures WordAt(s, at + 3) == Joined3(WordAt(s, at), WordAt(s, at + 8))
  {
    hide ReadLE64, Joined3;
    Straddled3(s[at..at + 16]);
    HalvesOf(s, at);
    SliceOfSlice(s, at, at + 16, 3, 11);
  }

  lemma Straddled5(t: Bytes)
    requires |t| == 16
    ensures ReadLE64(t[5..13]) == Joined5(ReadLE64(t[..8]), ReadLE64(t[8..]))
  {
  }

  lemma Straddle5(s: Bytes, at: nat)
    requires at + 16 <= |s|
    ensures WordAt(s, at + 5) == Joined5(WordAt(s, at), WordAt(s, at + 8))
  {
    hide ReadLE64, Joined5;
    Straddled5(s[at..at + 16]);
    HalvesOf(s, at);
    SliceOfSlice(s, at, at + 16, 5, 13);
  }

  lemma Straddled7(t: Bytes)
    requires |t| == 16
    ensures ReadLE64(t[7..15]) == Joined7(ReadLE64(t[..8]), ReadLE64(t[8..]))
  {
  }

  lemma Straddle7(s: Bytes, at: nat)
    requires at + 16 <= |s|
    ensures WordAt(s, at + 7) == Joined7(WordAt(s, at), WordAt(s, at + 8))
  {
    hide ReadLE64, Joined7;
    Straddled7(s[at..at + 16]);
    HalvesOf(s, at);
    SliceOfSlice(s, at, at + 16, 7, 15);
  }

  // ---- The generated secret ----

  lemma {:induction false} SeededRowAt(seed: bv64, i: nat, n: nat)
    requires i < n <= 12
    ensures SeededRows(seed, n)[16 * i..16 * i + 16] == SeededRow(KSecretRow(i), seed)
  {
    hide KSecretRow, SeededRow;
    if i < n - 1 {
      SeededRowAt(seed, i, n - 1);
      assert SeededRows(seed, n)[16 * i..16 * i + 16] == SeededRows(seed, n - 1)[16 * i..16 * i + 16];
    }
  }

  lemma SeededHalf(half: Bytes, seed: bv64)
    requires |half| == 8
    ensures ReadLE64(AddSeed(half, seed)) == Add64(ReadLE64(half), seed)
    ensures ReadLE64(SubtractSeed(half, seed)) == Sub64(ReadLE64(half), seed)
  {
    hide ReadLE64, WriteLE64, Add64, Sub64;
    ReadWrite64(Add64(ReadLE64(half), seed));
    ReadWrite64(Sub64(ReadLE64(half), seed));
  }

  lemma SeededHalves(row: Bytes, seed: bv64)
    requires |row| == 16
    ensures SeededRow(row, seed)[..8] == AddSeed(row[..8], seed) && SeededRow(row, seed)[8..] == SubtractSeed(row[8..], seed)
  {
    hide AddSeed, SubtractSeed;
  }

  /** Each sixteen bytes of a seed's secret: the seed is added to the first word and taken from the second. */
  lemma SeededWords(seed: bv64, i: nat)
    requires i < 12
    ensures WordAt(SecretFromSeed(seed), 16 * i) == Add64(WordAt(KSecret(), 16 * i), seed)
    ensures WordAt(SecretFromSeed(seed), 16 * i + 8) == Sub64(WordAt(KSecret(), 16 * i + 8), seed)
  {
    hide ReadLE64, AddSeed, SubtractSeed, KSecretRow, KSecretRows, SeededRows, SeededRow, Add64, Sub64;
    var row := KSecretRow(i);
    RowHalves(i);
    SeededRowAt(seed, i, 12);
    HalvesOf(SecretFromSeed(seed), 16 * i);
    SeededHalves(row, seed);
    SeededHalf(row[..8], seed);
    SeededHalf(row[8..], seed);
  }

  // ---- Products ----

  /** The one pair of words that makes up a product. */
  lemma ProductIs(a: bv64, b: bv64, lo: bv64, hi: bv64)
    requires Num(a) * Num(b) == Num(lo) + TWO_64 * Num(hi)
    ensures Mult64To128(a, b) == Hash128(lo, hi)
  {
    hide Num, Mult64To128;
    MultIsExact(a, b);
    var p := Mult64To128(a, b);
    NumBelow(p.low64);
    NumBelow(lo);
    SamePair(Num(p.low64), Num(p.high64), Num(lo), Num(hi));
    SameNum(p.low64, lo);
    SameNum(p.high64, hi);
  }

  lemma SamePair(a: nat, b: nat, c: nat, d: nat)
    requires a + TWO_64 * b == c + TWO_64 * d && a < TWO_64 && c < TWO_64
    ensures a == c && b == d
  {
  }

  lemma FoldIs(a: bv64, b: bv64, lo: bv64, hi: bv64)
    requires Num(a) * Num(b) == Num(lo) + TWO_64 * Num(hi)
    ensures Mul128Fold64(a, b) == Xor64(lo, hi)
  {
    hide Num, Mult64To128, Xor64;
    ProductIs(a, b, lo, hi);
  }

  // ---- Medium inputs ----

  /** What sixteen bytes from a, keyed from b, are mixed to. */
  predicate MixIs(s: Bytes, a: nat, k: Bytes, b: nat, seed: bv64, mixed: bv64) {
    a + 16 <= |s| && b + 16 <= |k| && Mix16B(s[a..a + 16], k[b..b + 16], seed) == mixed
  }

  lemma MixAt(s: Bytes, a: nat, k: Bytes, b: nat, seed: bv64)
    requires a + 16 <= |s| && b + 16 <= |k|
    ensures MixIs(s, a, k, b, seed,
                  Mul128Fold64(Xor64(WordAt(s, a), Add64(WordAt(k, b), seed)), Xor64(WordAt(s, a + 8), Sub64(WordAt(k, b + 8), seed))))
  {
    hide WordAt, Mul128Fold64, Xor64, Add64, Sub64;
    WordOfSlice(s, a, a + 16, 0);
    WordOfSlice(s, a, a + 16, 8);
    WordOfSlice(k, b, b + 16, 0);
    WordOfSlice(k, b, b + 16, 8);
  }

  /** One pair of the 64-bit hash. */
  lemma PairIs(acc: bv64, s: Bytes, k: Secret, seed: bv64, i: nat, front: bv64, back: bv64)
    requires i < 4 && 16 * (i + 1) <= |s|
    requires MixIs(s, 16 * i, k, 32 * i, seed, front) && MixIs(s, |s| - 16 * (i + 1), k, 32 * i + 16, seed, back)
    ensures S64.MixPair(acc, s, k, seed, i) == Add64(Add64(acc, front), back)
  {
    hide Mix16B, Add64;
  }

  /** Two pieces of sixteen bytes mixed into a pair of words. */
  function Mixed(acc: Hash128, s: Bytes, p: nat, q: nat, k: Bytes, b: nat, seed: bv64): Hash128
    requires p + 16 <= |s| && q + 16 <= |s| && b + 32 <= |k|
  {
    Hash128(Xor64(Add64(acc.low64, Mix16B(s[p..p + 16], k[b..b + 16], seed)), Add64(WordAt(s, q), WordAt(s, q + 8))),
            Xor64(Add64(acc.high64, Mix16B(s[q..q + 16], k[b + 16..b + 32], seed)), Add64(WordAt(s, p), WordAt(s, p + 8))))
  }

  lemma Mix32At(acc: Hash128, s: Bytes, p: nat, q: nat, k: Bytes, b: nat, seed: bv64)
    requires p + 16 <= |s| && q + 16 <= |s| && b + 32 <= |k|
    ensures S128.Mix32B(acc, s[p..p + 16], s[q..q + 16], k[b..b + 32], seed) == Mixed(acc, s, p, q, k, b, seed)
  {
    hide WordAt, Mix16B, Xor64, Add64;
    assert k[b..b + 32][..16] == k[b..b + 16] && k[b..b + 32][16..] == k[b + 16..b + 32];
    WordOfSlice(s, p, p + 16, 0);
    WordOfSlice(s, p, p + 16, 8);
    WordOfSlice(s, q, q + 16, 0);
    WordOfSlice(s, q, q + 16, 8);
  }

  lemma MixedIs(acc: Hash128, s: Bytes, p: nat, q: nat, k: Bytes, b: nat, seed: bv64, first: bv64, second: bv64)
    requires p + 16 <= |s| && q + 16 <= |s| && b + 32 <= |k|
    requires MixIs(s, p, k, b, seed, first) && MixIs(s, q, k, b + 16, seed, second)
    ensures Mixed(acc, s, p, q, k, b, seed)
            == Hash128(Xor64(Add64(acc.low64, first), Add64(WordAt(s, q), WordAt(s, q + 8))),
                       Xor64(Add64(acc.high64, second), Add64(WordAt(s, p), WordAt(s, p + 8))))
  {
    hide Mix16B, WordAt, Xor64, Add64;
  }

  /** One pair of the 128-bit hash. */
  lemma PairAt(acc: Hash128, s: Bytes, k: Secret, seed: bv64, i: nat)
    requires i < 4 && 16 * (i + 1) <= |s|
    ensures S128.MixPair(acc, s, k, seed, i) == Mixed(acc, s, 16 * i, |s| - 16 * (i + 1), k, 32 * i, seed)
  {
    hide S128.Mix32B, Mixed;
    Mix32At(acc, s, 16 * i, |s| - 16 * (i + 1), k, 32 * i, seed);
  }

  lemma PairsStep(acc: Hash128, s: Bytes, k: Secret, seed: bv64, i: nat)
    requires i < 4 && 16 * (i + 1) <= |s|
    ensures var next := S128.MixPair(acc, s, k, seed, i);
            S128.MixPairs(acc, s, k, seed, i) == if i == 0 then next else S128.MixPairs(next, s, k, seed, i - 1)
  {
    hide S128.MixPair;
  }

  lemma NoRounds(acc: bv64, s: Bytes, k: Secret, seed: bv64, first: nat, key: nat)
    requires 16 * first <= |s| && key <= |k|
    ensures S64.MixRounds(acc, s, k, seed, first, key, first) == acc
  {
    hide S64.MixRound;
  }

  lemma NextRound(acc: bv64, s: Bytes, k: Secret, seed: bv64, first: nat, key: nat, n: nat, before: bv64, mixed: bv64)
    requires first <= n && 16 * (n + 1) <= |s| && key + 16 * (n + 1 - first) <= |k|
    requires S64.MixRounds(acc, s, k, seed, first, key, n) == before && MixIs(s, 16 * n, k, key + 16 * (n - first), seed, mixed)
    ensures S64.MixRounds(acc, s, k, seed, first, key, n + 1) == Add64(before, mixed)
  {
    hide Mix16B, Add64;
  }

  /** One round of the 128-bit hash. */
  lemma RoundAt(acc: Hash128, s: Bytes, k: Secret, seed: bv64, i: nat, b: nat)
    requires 32 * (i + 1) <= |s| && b + 32 <= |k|
    ensures S128.MixRound(acc, s, k, seed, i, b) == Mixed(acc, s, 32 * i, 32 * i + 16, k, b, seed)
  {
    hide S128.Mix32B, Mixed;
    Mix32At(acc, s, 32 * i, 32 * i + 16, k, b, seed);
  }

  lemma FrontStep(s: Bytes, k: Secret, seed: bv64, n: nat)
    requires n < 4 && 32 * (n + 1) <= |s|
    ensures S128.FrontRounds(s, k, seed, 0) == S128.Start(|s|)
    ensures S128.FrontRounds(s, k, seed, n + 1) == S128.MixRound(S128.FrontRounds(s, k, seed, n), s, k, seed, n, 32 * n)
  {
    hide S128.MixRound, S128.Start;
  }

  lemma BackStep(acc: Hash128, s: Bytes, k: Secret, seed: bv64, n: nat)
    requires 4 <= n < 7 && 32 * (n + 1) <= |s|
    ensures S128.BackRounds(acc, s, k, seed, 4) == acc
    ensures S128.BackRounds(acc, s, k, seed, n + 1) == S128.MixRound(S128.BackRounds(acc, s, k, seed, n), s, k, seed, n, 3 + 32 * (n - 4))
  {
    hide S128.MixRound;
  }

  // ---- Lanes ----

  /** The product of a word's halves. */
  function HalvesTimes(z: bv64): bv64 { (z & 0xFFFFFFFF) * (z >> 32) }

  lemma UpperMasked(z: bv64)
    ensures HighHalf(z) == z >> 32 && (z >> 32) & 0xFFFFFFFF == z >> 32
  {
  }

  lemma HalvesTimesIs(z: bv64)
    ensures Mult32To64(z, HighHalf(z)) == HalvesTimes(z)
  {
    UpperMasked(z);
  }

  /** What a lane becomes, from the words of the stripe at a and of the key at b. */
  function LaneFrom(was: bv64, s: Bytes, a: nat, k: Bytes, b: nat, i: nat): bv64
    requires i < 8 && a + 64 <= |s| && b + 64 <= |k|
  {
    Add64(Add64(was, WordAt(s, a + 8 * Partner(i))), HalvesTimes(Xor64(WordAt(s, a + 8 * i), WordAt(k, b + 8 * i))))
  }

  function LanesFrom(acc: Acc, s: Bytes, a: nat, k: Bytes, b: nat): Acc
    requires a + 64 <= |s| && b + 64 <= |k|
  {
    seq(8, i requires 0 <= i < 8 => LaneFrom(acc[i], s, a, k, b, i))
  }

  lemma LaneIsWord(s: Bytes, a: nat, i: nat)
    requires i < 8 && a + 64 <= |s|
    ensures Lane(s[a..a + 64], i) == WordAt(s, a + 8 * i)
  {
    hide ReadLE64;
    SliceOfSlice(s, a, a + 64, 8 * i, 8 * i + 8);
  }

  lemma AccumulatesFrom(acc: Acc, s: Bytes, a: nat, k: Bytes, b: nat)
    requires a + 64 <= |s| && b + 64 <= |k|
    ensures AccumulateLanes(acc, s[a..a + 64], k[b..b + 64]) == LanesFrom(acc, s, a, k, b)
  {
    hide WordAt, Lane, Mult32To64, HighHalf, HalvesTimes, Xor64, Add64;
    forall i | 0 <= i < 8 ensures NewLane(acc[i], s[a..a + 64], k[b..b + 64], i) == LaneFrom(acc[i], s, a, k, b, i) {
      LaneIsWord(s, a, i);
      LaneIsWord(s, a, Partner(i));
      LaneIsWord(k, b, i);
      HalvesTimesIs(Xor64(WordAt(s, a + 8 * i), WordAt(k, b + 8 * i)));
    }
  }

  // A stripe of zeros.

  lemma ZeroWord(n: nat, at: nat)
    requires at + 8 <= n
    ensures WordAt(Zeros(n), at) == 0
  {
  }

  lemma ZeroChanges(x: bv64)
    ensures Add64(x, 0) == x && Xor64(0, x) == x
  {
  }

  lemma ZeroLane(was: bv64, n: nat, a: nat, k: Bytes, b: nat, i: nat)
    requires i < 8 && a + 64 <= n && b + 64 <= |k|
    ensures LaneFrom(was, Zeros(n), a, k, b, i) == Add64(was, HalvesTimes(WordAt(k, b + 8 * i)))
  {
    hide Zeros, WordAt, HalvesTimes, Xor64, Add64;
    ZeroWord(n, a + 8 * Partner(i));
    ZeroWord(n, a + 8 * i);
    ZeroChanges(was);
    ZeroChanges(WordAt(k, b + 8 * i));
  }

  function ZeroLanesFrom(acc: Acc, k: Bytes, b: nat): Acc
    requires b + 64 <= |k|
  {
    seq(8, i requires 0 <= i < 8 => Add64(acc[i], HalvesTimes(WordAt(k, b + 8 * i))))
  }

  lemma ZerosAccumulate(acc: Acc, n: nat, a: nat, k: Bytes, b: nat)
    requires a + 64 <= n && b + 64 <= |k|
    ensures LanesFrom(acc, Zeros(n), a, k, b) == ZeroLanesFrom(acc, k, b)
  {
    hide Zeros, WordAt, LaneFrom, HalvesTimes, Add64;
    forall i | 0 <= i < 8 ensures LaneFrom(acc[i], Zeros(n), a, k, b, i) == Add64(acc[i], HalvesTimes(WordAt(k, b + 8 * i))) {
      ZeroLane(acc[i], n, a, k, b, i);
    }
  }

  function ScrambledFrom(acc: Acc, k: Bytes, b: nat): Acc
    requires b + 64 <= |k|
  {
    seq(8, i requires 0 <= i < 8 => TimesPrime32(Xor64(XorShift47(acc[i]), WordAt(k, b + 8 * i))))
  }

  lemma ScramblesFrom(acc: Acc, k: Bytes, b: nat)
    requires b + 64 <= |k|
    ensures ScrambleLanes(acc, k[b..b + 64]) == ScrambledFrom(acc, k, b)
  {
    hide WordAt, Lane, TimesPrime32, XorShift47, Xor64;
    forall i | 0 <= i < 8 ensures Lane(k[b..b + 64], i) == WordAt(k, b + 8 * i) { LaneIsWord(k, b, i); }
  }

  /** The stripes taken one after the other, n in a block. */
  lemma NextStripe(secret: Secret, data: Bytes, n: nat, acc: Acc, soFar: nat)
    requires 64 * (n + 1) <= |data| && soFar < StripesPerBlock(secret)
    requires Run(LaneKernel(), secret, START, data, n) == Progress(acc, soFar)
    ensures var next := LanesFrom(acc, data, 64 * n, secret, 8 * soFar);
            Run(LaneKernel(), secret, START, data, n + 1)
            == if soFar + 1 == StripesPerBlock(secret) then Progress(ScrambledFrom(next, secret, |secret| - 64), 0) else Progress(next, soFar + 1)
  {
    hide AccumulateLanes, ScrambleLanes, LanesFrom, ScrambledFrom;
    AccumulatesFrom(acc, data, 64 * n, secret, 8 * soFar);
    ScramblesFrom(LanesFrom(acc, data, 64 * n, secret, 8 * soFar), secret, |secret| - 64);
    assert secret[|secret| - 64..|secret| - 64 + 64] == ScrambleKey(secret);
  }

  lemma NoStripes(secret: Secret, data: Bytes)
    ensures Run(LaneKernel(), secret, START, data, 0) == Progress(INIT_ACC, 0)
  {
  }

  lemma LastStripeFrom(secret: Secret, data: Bytes, acc: Acc)
    requires |data| > 64
    ensures AccumulateLanes(acc, data[|data| - 64..], LastKey(secret)) == LanesFrom(acc, data, |data| - 64, secret, |secret| - 71)
  {
    hide AccumulateLanes, LanesFrom;
    AccumulatesFrom(acc, data, |data| - 64, secret, |secret| - 71);
    assert data[|data| - 64..|data| - 64 + 64] == data[|data| - 64..];
    assert secret[|secret| - 71..|secret| - 71 + 64] == LastKey(secret);
  }

  /** The last stripe of a long input. */
  lemma LongLanes(secret: Secret, data: Bytes, acc: Acc, soFar: nat)
    requires |data| > 64 && Run(LaneKernel(), secret, START, data, (|data| - 1) / 64) == Progress(acc, soFar)
    ensures LongAcc(LaneKernel(), secret, data) == LanesFrom(acc, data, |data| - 64, secret, |secret| - 71)
  {
    hide Run, AccumulateLanes, LanesFrom, LastKey;
    LastStripeFrom(secret, data, acc);
  }

  /** The lanes condensed: a start and four folded products, keyed from a place of the secret. */
  function MergedFrom(acc: Acc, k: Bytes, b: nat, start: bv64): bv64
    requires b + 64 <= |k|
  {
    Avalanche(Add64(Add64(Add64(Add64(start, FoldAt(acc, k, b, 0)), FoldAt(acc, k, b, 1)), FoldAt(acc, k, b, 2)), FoldAt(acc, k, b, 3)))
  }

  function FoldAt(acc: Acc, k: Bytes, b: nat, i: nat): bv64
    requires i < 4 && b + 64 <= |k|
  {
    Mul128Fold64(Xor64(acc[2 * i], WordAt(k, b + 16 * i)), Xor64(acc[2 * i + 1], WordAt(k, b + 16 * i + 8)))
  }

  lemma FoldsFrom(acc: Acc, k: Bytes, b: nat, i: nat)
    requires i < 4 && b + 64 <= |k|
    ensures S64.Mix2Accs(acc[2 * i], acc[2 * i + 1], k[b..b + 64][16 * i..16 * (i + 1)]) == FoldAt(acc, k, b, i)
  {
    hide WordAt, Mul128Fold64, Xor64;
    SliceOfSlice(k, b, b + 64, 16 * i, 16 * (i + 1));
    WordOfSlice(k, b + 16 * i, b + 16 * i + 16, 0);
    WordOfSlice(k, b + 16 * i, b + 16 * i + 16, 8);
  }

  lemma MergesFrom(acc: Acc, k: Bytes, b: nat, start: bv64)
    requires b + 64 <= |k|
    ensures S64.MergeAccs(acc, k[b..b + 64], start) == MergedFrom(acc, k, b, start)
  {
    hide S64.Mix2Accs, FoldAt, Add64, Avalanche, S64.MergeLanes;
    var key := k[b..b + 64];
    S64.MergeNone(acc, key, start);
    S64.MergeNext(acc, key, start, 0);
    S64.MergeNext(acc, key, start, 1);
    S64.MergeNext(acc, key, start, 2);
    S64.MergeNext(acc, key, start, 3);
    FoldsFrom(acc, k, b, 0);
    FoldsFrom(acc, k, b, 1);
    FoldsFrom(acc, k, b, 2);
    FoldsFrom(acc, k, b, 3);
  }

  /** The 64-bit hash of a long input: keyed from byte 11 of the secret, from the length times a prime. */
  lemma LongHash64(k: Kernel, mode: Mode, data: Bytes, acc: Acc)
    requires |data| > 240 && LongAcc(k, LongSecret(mode), data) == acc
    ensures Hash(S64.Width64(), k, mode, data) == MergedFrom(acc, LongSecret(mode), 11, Mul64(LengthWord64(|data|), 0x9E3779B185EBCA87))
  {
    hide LongAcc, LongSecret, S64.Short, S64.MergeAccs, MergedFrom, Mul64, LengthWord64;
    MergesFrom(acc, LongSecret(mode), 11, Mul64(LengthWord64(|data|), 0x9E3779B185EBCA87));
  }

  /** The 128-bit hash: the same and, keyed from 75 bytes before the secret's end, from the complement of the length times another. */
  lemma LongHash128(k: Kernel, mode: Mode, data: Bytes, acc: Acc)
    requires |data| > 240 && LongAcc(k, LongSecret(mode), data) == acc
    ensures var (secret, len) := (LongSecret(mode), LengthWord64(|data|));
            Hash(S128.Width128(), k, mode, data)
            == Hash128(MergedFrom(acc, secret, 11, Mul64(len, 0x9E3779B185EBCA87)),
                       MergedFrom(acc, secret, |secret| - 75, S128.Complement(Mul64(len, 0xC2B2AE3D27D4EB4F))))
  {
    hide LongAcc, LongSecret, S128.Short, S64.MergeAccs, MergedFrom, Mul64, S128.Complement, LengthWord64;
    var secret := LongSecret(mode);
    MergesFrom(acc, secret, 11, Mul64(LengthWord64(|data|), 0x9E3779B185EBCA87));
    MergesFrom(acc, secret, |secret| - 75, S128.Complement(Mul64(LengthWord64(|data|), 0xC2B2AE3D27D4EB4F)));
    assert secret[|secret| - 75..|secret| - 75 + 64] == secret[|secret| - 75..|secret| - 11];
  }
}
