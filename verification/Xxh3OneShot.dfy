/** The one-shot side of XXH3: the block loop over a long input, the generated secret, and the
    choice between the short and the long path for each of the four public entry points. */
module Xxh3OneShot {
  import opened Mixing
  import opened Words
  import opened Xxh3Stripes

  type ShortInput = s: Bytes | |s| <= 240

  /** What distinguishes the 64-bit hash from the 128-bit one: its short-input function and how it
      condenses the lanes of a long input, given the secret and the length as a 64-bit word. */
  datatype Width<!T> = Width(short: (ShortInput, Secret, bv64) -> T, finalizeLong: (Acc, Secret, bv64) -> T)

  /** The four ways to key the hash. */
  datatype Mode =
    | Default
    | WithSecret(secret: Secret)
    | WithSeed(seed: bv64)
    | WithSecretAndSeed(secret: Secret, seed: bv64)

  /** One sixteen-byte row of the default secret. */
  function KSecretRow(i: nat): (row: Bytes)
    requires i < 12
    ensures |row| == 16
  {
    match i
    case 0 => [0xb8, 0xfe, 0x6c, 0x39, 0x23, 0xa4, 0x4b, 0xbe, 0x7c, 0x01, 0x81, 0x2c, 0xf7, 0x21, 0xad, 0x1c]
    case 1 => [0xde, 0xd4, 0x6d, 0xe9, 0x83, 0x90, 0x97, 0xdb, 0x72, 0x40, 0xa4, 0xa4, 0xb7, 0xb3, 0x67, 0x1f]
    case 2 => [0xcb, 0x79, 0xe6, 0x4e, 0xcc, 0xc0, 0xe5, 0x78, 0x82, 0x5a, 0xd0, 0x7d, 0xcc, 0xff, 0x72, 0x21]
    case 3 => [0xb8, 0x08, 0x46, 0x74, 0xf7, 0x43, 0x24, 0x8e, 0xe0, 0x35, 0x90, 0xe6, 0x81, 0x3a, 0x26, 0x4c]
    case 4 => [0x3c, 0x28, 0x52, 0xbb, 0x91, 0xc3, 0x00, 0xcb, 0x88, 0xd0, 0x65, 0x8b, 0x1b, 0x53, 0x2e, 0xa3]
    case 5 => [0x71, 0x64, 0x48, 0x97, 0xa2, 0x0d, 0xf9, 0x4e, 0x38, 0x19, 0xef, 0x46, 0xa9, 0xde, 0xac, 0xd8]
    case 6 => [0xa8, 0xfa, 0x76, 0x3f, 0xe3, 0x9c, 0x34, 0x3f, 0xf9, 0xdc, 0xbb, 0xc7, 0xc7, 0x0b, 0x4f, 0x1d]
    case 7 => [0x8a, 0x51, 0xe0, 0x4b, 0xcd, 0xb4, 0x59, 0x31, 0xc8, 0x9f, 0x7e, 0xc9, 0xd9, 0x78, 0x73, 0x64]
    case 8 => [0xea, 0xc5, 0xac, 0x83, 0x34, 0xd3, 0xeb, 0xc3, 0xc5, 0x81, 0xa0, 0xff, 0xfa, 0x13, 0x63, 0xeb]
    case 9 => [0x17, 0x0d, 0xdd, 0x51, 0xb7, 0xf0, 0xda, 0x49, 0xd3, 0x16, 0x55, 0x26, 0x29, 0xd4, 0x68, 0x9e]
    case 10 => [0x2b, 0x16, 0xbe, 0x58, 0x7d, 0x47, 0xa1, 0xfc, 0x8f, 0xf8, 0xb8, 0xd1, 0x7a, 0xd0, 0x31, 0xce]
    case _ => [0x45, 0xcb, 0x3a, 0x8f, 0x95, 0x16, 0x04, 0x28, 0xaf, 0xd7, 0xfb, 0xca, 0xbb, 0x4b, 0x40, 0x7e]
  }

  function KSecretRows(n: nat): (s: Bytes)
    requires n <= 12
    ensures |s| == 16 * n
  {
    if n == 0 then [] else KSecretRows(n - 1) + KSecretRow(n - 1)
  }

  /** The default secret. */
  function KSecret(): (s: Secret)
    ensures |s| == 192
  {
    KSecretRows(12)
  }

  /** The low word of each row gains the seed, the high word loses it. */
  function AddSeed(half: Bytes, seed: bv64): (s: Bytes)
    requires |half| == 8
    ensures |s| == 8
  {
    WriteLE64(Add64(ReadLE64(half), seed))
  }

  function SubtractSeed(half: Bytes, seed: bv64): (s: Bytes)
    requires |half| == 8
    ensures |s| == 8
  {
    WriteLE64(Sub64(ReadLE64(half), seed))
  }

  /** Sixteen bytes of the secret that a seed generates. */
  function SeededRow(row: Bytes, seed: bv64): (s: Bytes)
    requires |row| == 16
    ensures |s| == 16
  {
    AddSeed(row[..8], seed) + SubtractSeed(row[8..], seed)
  }

  /** The first n rows of the default secret, seeded. */
  function SeededRows(seed: bv64, n: nat): (s: Bytes)
    requires n <= 12
    ensures |s| == 16 * n
  {
    if n == 0 then [] else SeededRows(seed, n - 1) + SeededRow(KSecretRow(n - 1), seed)
  }

  /** The secret that a seed stands for. */
  function SecretFromSeed(seed: bv64): (s: Secret)
    ensures |s| == 192
  {
    SeededRows(seed, 12)
  }

  /** Seed zero regenerates the default secret: builds that skip the shortcut for it agree with those that take it. */
  lemma SeedZeroIsDefault()
    ensures SecretFromSeed(0) == KSecret()
  {
    hide KSecretRow;
    SeedZeroRows(12);
  }

  lemma {:induction false} SeedZeroRows(n: nat)
    requires n <= 12
    ensures SeededRows(0, n) == KSecretRows(n)
  {
    hide KSecretRow, SeededRow;
    if n > 0 {
      SeedZeroRows(n - 1);
      SeedZeroRow(KSecretRow(n - 1));
    }
  }

  lemma ZeroChangesNothing(w: bv64)
    ensures Add64(w, 0) == w && Sub64(w, 0) == w
  {
  }

  lemma SeedZeroHalf(half: Bytes)
    requires |half| == 8
    ensures AddSeed(half, 0) == half && SubtractSeed(half, 0) == half
  {
    hide ReadLE64, WriteLE64, Add64, Sub64;
    WriteRead64(half);
    ZeroChangesNothing(ReadLE64(half));
    assert half[..8] == half;
  }

  lemma SeedZeroRow(row: Bytes)
    requires |row| == 16
    ensures SeededRow(row, 0) == row
  {
    hide AddSeed, SubtractSeed;
    SeedZeroHalf(row[..8]);
    SeedZeroHalf(row[8..]);
  }

  lemma {:induction false} KSecretRowAt(i: nat, n: nat)
    requires i < n <= 12
    ensures KSecretRows(n)[16 * i..16 * i + 16] == KSecretRow(i)
  {
    hide KSecretRow;
    if i < n - 1 {
      KSecretRowAt(i, n - 1);
      assert KSecretRows(n)[16 * i..16 * i + 16] == KSecretRows(n - 1)[16 * i..16 * i + 16];
    }
  }

  /** The halves of a row of the default secret. */
  lemma RowHalves(i: nat)
    requires i < 12
    ensures var (k, row) := (KSecret(), KSecretRow(i)); k[16 * i..16 * i + 8] == row[..8] && k[16 * i + 8..16 * i + 16] == row[8..]
  {
    hide KSecretRow;
    KSecretRowAt(i, 12);
    HalvesOf(KSecret(), 16 * i);
  }

  lemma HalvesOf(k: Bytes, at: nat)
    requires at + 16 <= |k|
    ensures k[at..at + 8] == k[at..at + 16][..8] && k[at + 8..at + 16] == k[at..at + 16][8..]
  {
  }

  lemma RowsGrow(seed: bv64, i: nat)
    requires i < 12
    ensures SeededRows(seed, i + 1) == SeededRows(seed, i) + SeededRow(KSecretRow(i), seed)
  {
    hide KSecretRow, SeededRow;
  }

  /** Writes the seeded secret into its buffer, sixteen bytes a round. */
  method InitCustomSecret(customSecret: array<Byte>, seed: bv64)
    requires customSecret.Length == 192
    modifies customSecret
    ensures customSecret[..] == SecretFromSeed(seed)
  {
    hide KSecret, KSecretRow, AddSeed, SubtractSeed, SeededRows;
    var kSecret := KSecret();
    NoRows(seed);
    for i := 0 to 12
      invariant customSecret[..16 * i] == SeededRows(seed, i)
    {
      RowHalves(i);
      RowsGrow(seed, i);
      Store16(customSecret, 16 * i, AddSeed(kSecret[16 * i..16 * i + 8], seed) + SubtractSeed(kSecret[16 * i + 8..16 * i + 16], seed));
    }
    assert customSecret[..] == customSecret[..192];
  }

  lemma NoRows(seed: bv64)
    ensures SeededRows(seed, 0) == []
  {
  }

  /** The SSE2 build adds the seed and its negation to the two halves of a row at once. */
  method InitCustomSecretSse2(customSecret: array<Byte>, seed: bv64)
    requires customSecret.Length == 192
    modifies customSecret
    ensures customSecret[..] == SecretFromSeed(seed)
  {
    hide KSecret, KSecretRow, AddSeed, SubtractSeed, SeededRows;
    var kSecret := KSecret();
    NoRows(seed);
    for i := 0 to 12
      invariant customSecret[..16 * i] == SeededRows(seed, i)
    {
      RowHalves(i);
      RowsGrow(seed, i);
      NegatedSeed(kSecret[16 * i + 8..16 * i + 16], seed);
      Store16(customSecret, 16 * i, MmAddEpi64(kSecret[16 * i..16 * i + 8], kSecret[16 * i + 8..16 * i + 16], seed, 0 - seed));
    }
    assert customSecret[..] == customSecret[..192];
  }

  function MmAddEpi64(lo: Bytes, hi: Bytes, x: bv64, y: bv64): Bytes
    requires |lo| == |hi| == 8
  {
    AddSeed(lo, x) + AddSeed(hi, y)
  }

  lemma NegatedSeed(b: Bytes, seed: bv64)
    requires |b| == 8
    ensures AddSeed(b, 0 - seed) == SubtractSeed(b, seed)
  {
    hide ReadLE64, WriteLE64, Add64, Sub64;
    Negated(ReadLE64(b), seed);
  }

  lemma Negated(x: bv64, seed: bv64)
    ensures Add64(x, 0 - seed) == Sub64(x, seed)
  {
  }

  method Store16(buffer: array<Byte>, at: nat, row: Bytes)
    requires |row| == 16 && at + 16 <= buffer.Length
    modifies buffer
    ensures buffer[..at + 16] == old(buffer[..at]) + row
  {
    forall j | 0 <= j < 16 { buffer[at + j] := row[j]; }
  }

  /** The reference for a long input: every whole stripe that ends before the last byte, then the
      last 64 bytes again, keyed by a window that no other stripe uses, and no scramble after it. */
  function LongFrom(k: Kernel, secret: Secret, acc: Acc, data: Bytes): Acc
    requires |data| > 64
  {
    k.accumulate512(Run(k, secret, Progress(acc, 0), data, (|data| - 1) / 64).acc,
                    data[|data| - 64..], LastKey(secret))
  }

  function LongAcc(k: Kernel, secret: Secret, data: Bytes): Acc
    requires |data| > 64
  {
    LongFrom(k, secret, INIT_ACC, data)
  }

  function LastKey(secret: Secret): Stripe {
    secret[|secret| - 71..|secret| - 7]
  }

  /** How many whole blocks end before the last byte. */
  function BlocksBeforeEnd(len: nat, blockLen: nat): nat
    requires len > 0 && blockLen > 0
  {
    (len - 1) / blockLen
  }

  ghost predicate BlockStartsAt(n: nat, blockLen: nat, at: nat) {
    at == n * blockLen
  }

  lemma FirstBlock(blockLen: nat)
    ensures BlockStartsAt(0, blockLen, 0)
  {
  }

  lemma NextBlock(n: nat, blockLen: nat, at: nat, len: nat)
    requires len > 0 && blockLen > 0 && BlockStartsAt(n, blockLen, at)
    ensures n < BlocksBeforeEnd(len, blockLen)
            ==> at + blockLen <= len - 1 && BlockStartsAt(n + 1, blockLen, at + blockLen)
    ensures n == BlocksBeforeEnd(len, blockLen) ==> at <= len - 1 < at + blockLen
  {
    var q := BlocksBeforeEnd(len, blockLen);
    assert q * blockLen <= len - 1 < q * blockLen + blockLen;
    assert n < q ==> (n + 1) * blockLen <= q * blockLen;
  }

  /** Folds the stripes of one block, or of the part of it that the input still has, from the start of a block. */
  method FoldBlock(k: Kernel, acc: array<bv64>, secret: Secret, ghost start: Progress, input: Bytes,
                   at: nat, ghost stripes: nat, nbStripes: nat)
    requires acc.Length == 8 && start.soFar < StripesPerBlock(secret)
    requires at == 64 * stripes && 64 * (stripes + nbStripes) <= |input|
    requires nbStripes <= StripesPerBlock(secret)
    requires Run(k, secret, start, input, stripes) == Progress(acc[..], 0)
    modifies acc
    ensures Run(k, secret, start, input, stripes + nbStripes)
            == if nbStripes == StripesPerBlock(secret)
               then Progress(k.scramble(acc[..], ScrambleKey(secret)), 0) else Progress(acc[..], nbStripes)
  {
    hide Step, Fold, Run;
    RunThroughBlock(k, secret, start, input, stripes, nbStripes);
    assert secret[8 * 0..] == secret;
    Accumulate(k, acc, input[at..], secret, nbStripes);
  }

  lemma StripesLeft(len: nat, at: nat, stripes: nat, perBlock: nat)
    requires at == 64 * stripes && at <= len - 1 < at + 64 * perBlock
    ensures ((len - 1) - at) / 64 < perBlock
    ensures stripes + ((len - 1) - at) / 64 == (len - 1) / 64 && 64 * ((len - 1) / 64) <= len
  {
  }

  lemma LastStripe(k: Kernel, secret: Secret, acc: Acc, input: Bytes, folded: Acc, n: nat)
    requires |input| > 64 && n == (|input| - 1) / 64
    requires Run(k, secret, Progress(acc, 0), input, n).acc == folded
    ensures k.accumulate512(folded, input[|input| - 64..], secret[|secret| - 71..|secret| - 7]) == LongFrom(k, secret, acc, input)
  {
    hide Run;
  }

  /** The block loop of the one-shot hash: full blocks with a scramble each. Returns where it stops. */
  method FoldWholeBlocks(k: Kernel, acc: array<bv64>, input: Bytes, secret: Secret, nbStripesPerBlock: nat, ghost start: Progress)
    returns (at: nat, ghost stripes: nat)
    requires acc.Length == 8 && |input| > 64
    requires nbStripesPerBlock == StripesPerBlock(secret) && start == Progress(acc[..], 0)
    modifies acc
    ensures at == 64 * stripes && at <= |input| - 1 < at + 64 * nbStripesPerBlock
    ensures Run(k, secret, start, input, stripes) == Progress(acc[..], 0)
  {
    assert start == Run(k, secret, start, input, 0);
    hide Step, Fold, Run, StripesPerBlock, BlocksBeforeEnd, BlockStartsAt;
    var len := |input|;
    var blockLen := 64 * nbStripesPerBlock;
    var nbBlocks := BlocksBeforeEnd(len, blockLen);
    stripes := 0;
    at := 0;
    FirstBlock(blockLen);
    for n := 0 to nbBlocks
      invariant BlockStartsAt(n, blockLen, at) && at == 64 * stripes
      invariant 64 * stripes <= len - 1
      invariant Progress(acc[..], 0) == Run(k, secret, start, input, stripes)
    {
      NextBlock(n, blockLen, at, len);
      FoldBlock(k, acc, secret, start, input, at, stripes, nbStripesPerBlock);
      Scramble(k, acc, secret[|secret| - 64..]);
      stripes := stripes + nbStripesPerBlock;
      at := at + blockLen;
    }
    NextBlock(nbBlocks, blockLen, at, len);
  }

  /** Full blocks, the partial block, and the last stripe, which may overlap the one before. */
  method HashLongInternalLoop(k: Kernel, acc: array<bv64>, input: Bytes, secret: Secret)
    requires acc.Length == 8
    requires |input| > 64
    modifies acc
    ensures acc[..] == LongFrom(k, secret, old(acc[..]), input)
  {
    hide Step, Fold, Run, LongFrom;
    var len := |input|;
    var nbStripesPerBlock := (|secret| - 64) / 8;
    ghost var start := Progress(acc[..], 0);
    var at, stripes := FoldWholeBlocks(k, acc, input, secret, nbStripesPerBlock, start);
    var nbStripes := ((len - 1) - at) / 64;
    StripesLeft(len, at, stripes, nbStripesPerBlock);
    FoldBlock(k, acc, secret, start, input, at, stripes, nbStripes);
    ghost var folded := acc[..];
    Accumulate512(k, acc, input[len - 64..], secret[|secret| - 64 - 7..|secret| - 7]);
    LastStripe(k, secret, start.acc, input, folded, stripes + nbStripes);
  }

  /** The secret a long input is hashed with. */
  function LongSecret(mode: Mode): Secret {
    match mode
    case Default => KSecret()
    case WithSecret(secret) => secret
    case WithSeed(seed) => if seed == 0 then KSecret() else SecretFromSeed(seed)
    case WithSecretAndSeed(secret, _) => secret
  }

  /** The secret and the seed a short input is hashed with: a mode that has a seed ignores its own secret. */
  function ShortKey(mode: Mode): (Secret, bv64) {
    match mode
    case Default => (KSecret(), 0)
    case WithSecret(secret) => (secret, 0)
    case WithSeed(seed) => (KSecret(), seed)
    case WithSecretAndSeed(_, seed) => (KSecret(), seed)
  }

  /** The public one-shot hash, as a function of the input. */
  function Hash<T>(w: Width<T>, k: Kernel, mode: Mode, input: Bytes): T {
    if |input| <= 240 then
      var (secret, seed) := ShortKey(mode);
      w.short(input, secret, seed)
    else
      var secret := LongSecret(mode);
      w.finalizeLong(LongAcc(k, secret, input), secret, LengthWord64(|input|))
  }

  /** How the four modes are related: seed 0 and the default secret change nothing, and with both a secret and a seed short inputs
      are hashed with the seed alone and long ones with the secret alone. */
  lemma ModesAgree<T>(w: Width<T>, k: Kernel, secret: Secret, seed: bv64, input: Bytes)
    ensures Hash(w, k, WithSeed(0), input) == Hash(w, k, Default, input) == Hash(w, k, WithSecret(KSecret()), input)
    ensures Hash(w, k, WithSecretAndSeed(secret, seed), input)
            == if |input| <= 240 then Hash(w, k, WithSeed(seed), input) else Hash(w, k, WithSecret(secret), input)
  {
    hide KSecret, SecretFromSeed, LongAcc, LengthWord64;
  }

  /** The public one-shot hash, as it runs. */
  method OneShot<T>(w: Width<T>, k: Kernel, mode: Mode, input: Bytes) returns (h: T)
    ensures h == Hash(w, k, mode, input)
  {
    hide KSecretRow, LengthWord64;
    if |input| <= 240 {
      var (secret, seed) := ShortKey(mode);
      h := w.short(input, secret, seed);
    } else {
      var acc := new bv64[8](i requires 0 <= i < 8 => INIT_ACC[i]);
      assert acc[..] == INIT_ACC;
      var secret: Secret;
      match mode {
        case WithSeed(seed) =>
          if seed == 0 {
            secret := KSecret();
          } else {
            var generated := new Byte[192];
            InitCustomSecret(generated, seed);
            secret := generated[..];
          }
        case WithSecret(s) => secret := s;
        case WithSecretAndSeed(s, _) => secret := s;
        case Default => secret := KSecret();
      }
      HashLongInternalLoop(k, acc, input, secret);
      h := w.finalizeLong(acc[..], secret, LengthWord64(|input|));
    }
  }
}
