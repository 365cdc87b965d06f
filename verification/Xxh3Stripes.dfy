/** The long-input core of XXH3: how 64-byte stripes are folded into eight accumulator lanes.

    The two lane kernels are function values, as they are function pointers in the original, so
    that everything proved here holds for every build of them. */
module Xxh3Stripes {
  import opened Words

  type Acc = s: seq<bv64> | |s| == 8 witness [0, 0, 0, 0, 0, 0, 0, 0]
  type Stripe = s: Bytes | |s| == 64 witness seq(64, _ => 0)
  type Secret = s: Bytes | |s| >= 136 witness seq(136, _ => 0)

  /** The build's pair of kernels: one stripe folded in, and the scramble after a block. */
  datatype Kernel = Kernel(accumulate512: (Acc, Stripe, Stripe) -> Acc, scramble: (Acc, Stripe) -> Acc)

  /** How far a long input has been folded: the lanes, and the stripes taken since the last scramble. */
  datatype Progress = Progress(acc: Acc, soFar: nat)

  const INIT_ACC: Acc := [0xC2B2AE3D, 0x9E3779B185EBCA87, 0xC2B2AE3D27D4EB4F, 0x165667B19E3779F9,
                          0x85EBCA77C2B2AE63, 0x85EBCA77, 0x27D4EB2F165667C5, 0x9E3779B1]

  const START := Progress(INIT_ACC, 0)

  function StripesPerBlock(secret: Secret): (n: nat)
    ensures n >= 9 && 8 * n + 64 <= |secret|
  {
    (|secret| - 64) / 8
  }

  function StripeAt(data: Bytes, i: nat): Stripe
    requires 64 * i + 64 <= |data|
  {
    data[64 * i..64 * i + 64]
  }

  function ScrambleKey(secret: Secret): Stripe {
    secret[|secret| - 64..]
  }

  /** One stripe of the reference: fold it in with the secret window that its place in the block
      selects, and scramble exactly when it completes the block. */
  function Step(k: Kernel, secret: Secret, p: Progress, stripe: Stripe): (q: Progress)
    requires p.soFar < StripesPerBlock(secret)
    ensures q.soFar < StripesPerBlock(secret)
  {
    var acc := k.accumulate512(p.acc, stripe, secret[8 * p.soFar..8 * p.soFar + 64]);
    if p.soFar + 1 == StripesPerBlock(secret) then Progress(k.scramble(acc, ScrambleKey(secret)), 0)
    else Progress(acc, p.soFar + 1)
  }

  /** The reference meaning of consuming the first n stripes of data from p, one stripe at a time. */
  function Run(k: Kernel, secret: Secret, p: Progress, data: Bytes, n: nat): (q: Progress)
    requires p.soFar < StripesPerBlock(secret)
    requires 64 * n <= |data|
    ensures q.soFar < StripesPerBlock(secret)
  {
    if n == 0 then p else Step(k, secret, Run(k, secret, p, data, n - 1), StripeAt(data, n - 1))
  }

  /** Only the stripes consumed matter. */
  lemma {:induction false} RunReadsPrefix(k: Kernel, secret: Secret, p: Progress, d: Bytes, e: Bytes, n: nat)
    requires p.soFar < StripesPerBlock(secret)
    requires 64 * n <= |d| && 64 * n <= |e| && d[..64 * n] == e[..64 * n]
    ensures Run(k, secret, p, d, n) == Run(k, secret, p, e, n)
  {
    if n > 0 {
      assert d[..64 * (n - 1)] == d[..64 * n][..64 * (n - 1)];
      assert e[..64 * (n - 1)] == e[..64 * n][..64 * (n - 1)];
      RunReadsPrefix(k, secret, p, d, e, n - 1);
      assert StripeAt(d, n - 1) == d[..64 * n][64 * (n - 1)..];
      assert StripeAt(e, n - 1) == e[..64 * n][64 * (n - 1)..];
    }
  }

  /** Consuming in two goes is consuming in one. */
  lemma {:induction false} RunConcat(k: Kernel, secret: Secret, p: Progress, d: Bytes, m: nat, n: nat)
    requires p.soFar < StripesPerBlock(secret)
    requires 64 * (m + n) <= |d|
    ensures Run(k, secret, Run(k, secret, p, d, m), d[64 * m..], n) == Run(k, secret, p, d, m + n)
  {
    hide Step, StripeAt;
    if n > 0 {
      RunConcat(k, secret, p, d, m, n - 1);
      StripeAfter(d, m, n - 1);
    }
  }

  lemma StripeAfter(d: Bytes, m: nat, i: nat)
    requires 64 * (m + i + 1) <= |d|
    ensures StripeAt(d[64 * m..], i) == StripeAt(d, m + i)
  {
    assert StripeAt(d[64 * m..], i) == StripeAt(d, m + i);
  }

  /** Stripes folded in without any scramble, as the kernels' inner loop does. */
  function Fold(k: Kernel, acc: Acc, data: Bytes, key: Bytes, n: nat): Acc
    requires 64 * n <= |data| && (n > 0 ==> 8 * (n - 1) + 64 <= |key|)
  {
    if n == 0 then acc
    else k.accumulate512(Fold(k, acc, data, key, n - 1), StripeAt(data, n - 1), key[8 * (n - 1)..8 * (n - 1) + 64])
  }

  /** Up to the end of a block the reference is a plain fold, plus the scramble if the block fills. */
  lemma {:induction false} RunWithinBlock(k: Kernel, secret: Secret, p: Progress, data: Bytes, n: nat)
    requires p.soFar + n <= StripesPerBlock(secret) && p.soFar < StripesPerBlock(secret)
    requires 64 * n <= |data|
    ensures var acc := Fold(k, p.acc, data, secret[8 * p.soFar..], n);
            Run(k, secret, p, data, n)
            == if p.soFar + n == StripesPerBlock(secret) then Progress(k.scramble(acc, ScrambleKey(secret)), 0)
               else Progress(acc, p.soFar + n)
  {
    if n > 0 {
      RunWithinBlock(k, secret, p, data, n - 1);
      var at := p.soFar + n - 1;
      assert secret[8 * p.soFar..][8 * (n - 1)..8 * (n - 1) + 64] == secret[8 * at..8 * at + 64];
    }
  }

  /** The same, starting anywhere in the input: what one pass of the consuming loop does. */
  lemma RunThroughBlock(k: Kernel, secret: Secret, p: Progress, data: Bytes, m: nat, n: nat)
    requires p.soFar < StripesPerBlock(secret) && 64 * (m + n) <= |data|
    requires Run(k, secret, p, data, m).soFar + n <= StripesPerBlock(secret)
    ensures var q := Run(k, secret, p, data, m);
            var acc := Fold(k, q.acc, data[64 * m..], secret[8 * q.soFar..], n);
            Run(k, secret, p, data, m + n)
            == if q.soFar + n == StripesPerBlock(secret) then Progress(k.scramble(acc, ScrambleKey(secret)), 0)
               else Progress(acc, q.soFar + n)
  {
    RunConcat(k, secret, p, data, m, n);
    RunWithinBlock(k, secret, Run(k, secret, p, data, m), data[64 * m..], n);
  }

  /** The accumulate template: nbStripes stripes, the secret advancing eight bytes at each. */
  method Accumulate(k: Kernel, acc: array<bv64>, input: Bytes, secret: Bytes, nbStripes: nat)
    requires acc.Length == 8
    requires 64 * nbStripes <= |input| && (nbStripes > 0 ==> 8 * (nbStripes - 1) + 64 <= |secret|)
    modifies acc
    ensures acc[..] == Fold(k, old(acc[..]), input, secret, nbStripes)
  {
    for n := 0 to nbStripes
      invariant acc[..] == Fold(k, old(acc[..]), input, secret, n)
    {
      Accumulate512(k, acc, StripeAt(input, n), secret[8 * n..8 * n + 64]);
    }
  }

  /** One call through the accumulate kernel's pointer: it overwrites the lanes. */
  method Accumulate512(k: Kernel, acc: array<bv64>, stripe: Stripe, key: Stripe)
    requires acc.Length == 8
    modifies acc
    ensures acc[..] == k.accumulate512(old(acc[..]), stripe, key)
  {
    var lanes := k.accumulate512(acc[..], stripe, key);
    forall i | 0 <= i < 8 { acc[i] := lanes[i]; }
    assert acc[..] == lanes;
  }

  /** One call through the scramble kernel's pointer. */
  method Scramble(k: Kernel, acc: array<bv64>, key: Stripe)
    requires acc.Length == 8
    modifies acc
    ensures acc[..] == k.scramble(old(acc[..]), key)
  {
    var lanes := k.scramble(acc[..], key);
    forall i | 0 <= i < 8 { acc[i] := lanes[i]; }
    assert acc[..] == lanes;
  }

  /** Consumes stripes that may straddle block ends; returns the new place in the block and the bytes read. */
  method ConsumeStripes(k: Kernel, acc: array<bv64>, nbStripesSoFar: nat, nbStripesPerBlock: nat,
                        input: Bytes, nbStripes: nat, secret: Secret, secretLimit: nat)
    returns (soFar: nat, read: nat)
    requires acc.Length == 8
    requires nbStripesPerBlock == StripesPerBlock(secret) && secretLimit == |secret| - 64
    requires nbStripesSoFar < nbStripesPerBlock && 64 * nbStripes <= |input|
    modifies acc
    ensures Progress(acc[..], soFar) == Run(k, secret, Progress(old(acc[..]), nbStripesSoFar), input, nbStripes)
    ensures read == 64 * nbStripes
  {
    hide Step, Fold;
    ghost var start := Progress(acc[..], nbStripesSoFar);
    assert start == Run(k, secret, start, input, 0);
    var initialSecret := secret[8 * nbStripesSoFar..];
    var left: nat := nbStripes;
    soFar, read := nbStripesSoFar, 0;
    if left >= nbStripesPerBlock - soFar {
      var thisIter := nbStripesPerBlock - soFar;
      ghost var place: nat := soFar;
      ghost var done: nat := 0;
      while true
        invariant 0 < thisIter <= left && place + thisIter == nbStripesPerBlock && place < nbStripesPerBlock
        invariant initialSecret == secret[8 * place..]
        invariant done + left == nbStripes && read == 64 * done
        invariant Progress(acc[..], place) == Run(k, secret, start, input, done)
        decreases left
      {
        RunThroughBlock(k, secret, start, input, done, thisIter);
        Accumulate(k, acc, input[read..], initialSecret, thisIter);
        Scramble(k, acc, secret[secretLimit..secretLimit + 64]);
        assert secret[secretLimit..secretLimit + 64] == ScrambleKey(secret);
        read := read + thisIter * 64;
        left := left - thisIter;
        done, place := done + thisIter, 0;
        thisIter := nbStripesPerBlock;
        initialSecret := secret;
        if left < nbStripesPerBlock { break; }
      }
      soFar := 0;
      assert Progress(acc[..], 0) == Run(k, secret, start, input, done);
    }
    if left > 0 {
      RunThroughBlock(k, secret, start, input, nbStripes - left, left);
      Accumulate(k, acc, input[read..], initialSecret, left);
      read := read + left * 64;
      soFar := soFar + left;
    }
  }
}
