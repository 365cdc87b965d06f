/** The XXH3 streaming state: a 256-byte buffer in front of the stripe core, and the resets that key it. */
module Xxh3State {
  import opened Words
  import opened Xxh3Stripes
  import opened Xxh3OneShot
  import opened Wrappers

  datatype Status = Ok | Error

  /** The part of the state that decides the long-input secret: it outlives a reset. */
  datatype Keying = Keying(seed: bv64, extSecret: Option<Bytes>, customSecret: Bytes)

  /** The cache is sound: with a seed and no external secret, the generated secret is the seed's. */
  ghost predicate CacheSound(c: Keying) {
    |c.customSecret| == 192 && (c.extSecret.None? && c.seed != 0 ==> c.customSecret == SecretFromSeed(c.seed))
  }

  /** The public resets, with their arguments as a caller may pass them: a secret may be missing or too short. */
  datatype Reset =
    | ResetDefault
    | ResetWithSecret(secret: Option<Bytes>)
    | ResetWithSeed(seed: bv64)
    | ResetWithSecretAndSeed(secret: Option<Bytes>, seed: bv64)

  /** What a reset leaves as keying. A rejected secret without a seed is still installed; with a seed nothing changes. */
  ghost function Keyed(c: Keying, r: Reset): Keying {
    match r
    case ResetDefault => Keying(0, Some(KSecret()), c.customSecret)
    case ResetWithSecret(secret) => Keying(0, secret, c.customSecret)
    case ResetWithSeed(seed) =>
      if seed == 0 then Keying(0, Some(KSecret()), c.customSecret)
      else if seed != c.seed || c.extSecret.Some? then Keying(seed, None, SecretFromSeed(seed))
      else Keying(seed, None, c.customSecret)
    case ResetWithSecretAndSeed(secret, seed) =>
      if secret.None? || |secret.value| < 136 then c else Keying(seed, secret, c.customSecret)
  }

  ghost function KeyedBy(c: Keying, rs: seq<Reset>): Keying {
    if rs == [] then c else Keyed(KeyedBy(c, rs[..|rs| - 1]), rs[|rs| - 1])
  }

  /** Over every sequence of resets of a freshly initialised state the cache stays sound, so
      reset_withSeed may skip generating the secret whenever it does. */
  lemma {:induction false} CacheSoundOverResets(c: Keying, rs: seq<Reset>)
    requires c.seed == 0 && c.extSecret.None? && |c.customSecret| == 192
    ensures CacheSound(KeyedBy(c, rs))
    ensures forall seed :: seed != 0 ==> Keyed(KeyedBy(c, rs), ResetWithSeed(seed)).customSecret == SecretFromSeed(seed)
  {
    hide KSecret, SecretFromSeed;
    if rs != [] {
      CacheSoundOverResets(c, rs[..|rs| - 1]);
    }
  }

  /** The mode that an accepted reset selects. */
  function ModeOf(r: Reset): (m: Option<Mode>) {
    match r
    case ResetDefault => Some(Default)
    case ResetWithSecret(secret) =>
      if secret.Some? && |secret.value| >= 136 then Some(WithSecret(secret.value)) else None
    case ResetWithSeed(seed) => Some(WithSeed(seed))
    case ResetWithSecretAndSeed(secret, seed) =>
      if secret.Some? && |secret.value| >= 136 then Some(WithSecretAndSeed(secret.value, seed)) else None
  }

  /** The bytes received so far and how the state holds them: all of them folded into the lanes
      except the last bufferedSize, which the buffer holds; the buffer's last 64 bytes are kept as
      the stripe before them for as long as nothing has been buffered over it. */
  ghost predicate Holds(k: Kernel, secret: Secret, stream: Bytes, buffer: Bytes, bufferedSize: nat, p: Progress)
    requires |buffer| == 256
  {
    && bufferedSize <= 256 && bufferedSize <= |stream|
    && (|stream| > 0 ==> bufferedSize > 0)
    && var consumed := |stream| - bufferedSize;
    && consumed % 64 == 0 && (consumed > 0 ==> |stream| > 256)
    && buffer[..bufferedSize] == stream[consumed..]
    && p == Run(k, secret, START, stream, consumed / 64)
    && (consumed > 0 && bufferedSize <= 192 ==> buffer[192..] == stream[consumed - 64..consumed])
  }

  /** The first done bytes of a stream, all of them whole stripes, have been folded into p. */
  ghost predicate Folded(k: Kernel, secret: Secret, stream: Bytes, done: nat, p: Progress) {
    done <= |stream| && done % 64 == 0 && p == Run(k, secret, START, stream, done / 64)
  }

  lemma FoldedWhole(k: Kernel, secret: Secret, stream: Bytes, done: nat, p: Progress)
    requires Folded(k, secret, stream, done, p)
    ensures done <= |stream| && done % 64 == 0
  {
  }

  /** Folding the next n stripes, wherever the bytes were copied from. */
  lemma FoldedMore(k: Kernel, secret: Secret, stream: Bytes, done: nat, p: Progress, chunk: Bytes, n: nat)
    requires Folded(k, secret, stream, done, p)
    requires 64 * n <= |chunk| && done + 64 * n <= |stream| && chunk[..64 * n] == stream[done..done + 64 * n]
    ensures p.soFar < StripesPerBlock(secret)
    ensures Folded(k, secret, stream, done + 64 * n, Run(k, secret, p, chunk, n))
  {
    hide Step, Run;
    var m := done / 64;
    assert done == 64 * m && (done + 64 * n) / 64 == m + n;
    RunConcat(k, secret, START, stream, m, n);
    assert stream[done..][..64 * n] == stream[done..done + 64 * n];
    RunReadsPrefix(k, secret, p, chunk, stream[done..], n);
  }

  /** Bytes that have only been buffered do not change what has been folded. */
  lemma FoldedExtends(k: Kernel, secret: Secret, stream: Bytes, more: Bytes, done: nat, p: Progress)
    requires Folded(k, secret, stream, done, p)
    ensures Folded(k, secret, stream + more, done, p)
  {
    assert (stream + more)[..done] == stream[..done];
    RunReadsPrefix(k, secret, START, stream, stream + more, done / 64);
  }

  /** What holding a stream says about the part already folded, once more input is to follow. */
  lemma HeldFolded(k: Kernel, secret: Secret, stream: Bytes, buffer: Bytes, bufferedSize: nat, p: Progress, more: Bytes)
    requires |buffer| == 256 && Holds(k, secret, stream, buffer, bufferedSize, p)
    ensures bufferedSize <= |stream| && buffer[..bufferedSize] == stream[|stream| - bufferedSize..]
    ensures Folded(k, secret, stream + more, |stream| - bufferedSize, p)
    ensures bufferedSize == 0 ==> stream == []
  {
    hide Run;
    FoldedExtends(k, secret, stream, more, |stream| - bufferedSize, p);
  }

  lemma Appended(stream: Bytes, buffer: Bytes, size: nat, input: Bytes, consumed: nat)
    requires |buffer| == 256 && size + |input| <= 256 && consumed + size == |stream| && buffer[..size] == stream[consumed..]
    ensures var buffer' := buffer[..size] + input + buffer[size + |input|..];
            && |buffer'| == 256 && buffer'[..size + |input|] == (stream + input)[consumed..]
            && (size + |input| <= 192 ==> buffer'[192..] == buffer[192..])
    ensures forall from :: 0 <= from <= consumed ==> (stream + input)[from..consumed] == stream[from..consumed]
  {
    assert (stream + input)[consumed..] == stream[consumed..] + input;
  }

  /** Appending to the buffer alone. */
  lemma HoldsMore(k: Kernel, secret: Secret, stream: Bytes, buffer: Bytes, bufferedSize: nat, p: Progress, input: Bytes)
    requires |buffer| == 256 && Holds(k, secret, stream, buffer, bufferedSize, p)
    requires bufferedSize + |input| <= 256
    ensures Holds(k, secret, stream + input, buffer[..bufferedSize] + input + buffer[bufferedSize + |input|..],
                  bufferedSize + |input|, p)
  {
    hide Run;
    var consumed := |stream| - bufferedSize;
    FoldedExtends(k, secret, stream, input, consumed, p);
    Appended(stream, buffer, bufferedSize, input, consumed);
  }

  /** Refilling the buffer from its start with all that is left of the stream. */
  lemma HoldsRest(k: Kernel, secret: Secret, stream: Bytes, buffer: Bytes, done: nat, p: Progress)
    requires |buffer| == 256 && Folded(k, secret, stream, done, p)
    requires 0 < |stream| - done <= 256 < |stream|
    requires done >= 64 && buffer[192..] == stream[done - 64..done]
    ensures Holds(k, secret, stream, stream[done..] + buffer[|stream| - done..], |stream| - done, p)
  {
    var buffer' := stream[done..] + buffer[|stream| - done..];
    assert buffer'[..|stream| - done] == stream[done..];
    if |stream| - done <= 192 {
      assert buffer'[192..] == buffer[192..];
    }
  }

  lemma SamePrefix(a: Bytes, b: Bytes, size: nat, from: nat, n: nat)
    requires size <= |a| && from <= |b| && a[..size] == b[from..] && n <= size
    ensures from + n <= |b| && a[..n] == b[from..from + n]
  {
    assert a[..n] == a[..size][..n] && b[from..from + n] == b[from..][..n];
  }

  /** Filling the buffer from the input makes it the 256 bytes of the stream that follow those done. */
  lemma Filled(front: Bytes, stream: Bytes, input: Bytes, done: nat)
    requires done + |front| == |stream| && front == stream[done..] && |front| <= 256 <= |front| + |input|
    ensures front + input[..256 - |front|] == (stream + input)[done..done + 256]
    ensures input[256 - |front|..] == (stream + input)[done + 256..]
  {
  }

  /** The kept tail of the buffer and the few buffered bytes are the last 64 bytes of the stream. */
  lemma CaughtUp(buffer: Bytes, stream: Bytes, size: nat)
    requires |buffer| == 256 && size < 64 && size + 64 <= |stream|
    requires buffer[192..] == stream[|stream| - size - 64..|stream| - size] && buffer[..size] == stream[|stream| - size..]
    ensures buffer[192 + size..] + buffer[..size] == stream[|stream| - 64..]
  {
    assert buffer[192 + size..] == buffer[192..][size..];
  }

  /** The whole stripes before the last byte are those already done and those before it in the buffer. */
  lemma WholeStripes(done: nat, size: nat)
    requires done % 64 == 0 && size > 0
    ensures 64 * ((done + size - 1) / 64) == done + 64 * ((size - 1) / 64)
  {
  }

  class State {
    const kernel: Kernel
    const acc: array<bv64>
    const customSecret: array<Byte>
    const buffer: array<Byte>
    var bufferedSize: nat
    var useSeed: bool
    var nbStripesSoFar: nat
    var totalLen: nat
    var nbStripesPerBlock: nat
    var secretLimit: nat
    var seed: bv64
    var extSecret: Option<Bytes>
    ghost var mode: Option<Mode>   // the accepted reset in force, if any
    ghost var stream: Bytes        // every byte received since it

    ghost predicate Layout() {
      acc.Length == 8 && customSecret.Length == 192 && buffer.Length == 256 && customSecret != buffer
    }

    ghost predicate Valid()
      reads this`seed, this`extSecret, customSecret
    {
      Layout() && CacheSound(KeyingNow())
    }

    ghost function KeyingNow(): Keying
      reads this`seed, this`extSecret, customSecret
    {
      Keying(seed, extSecret, customSecret[..])
    }

    /** A successful reset has been made: the state is keyed for its mode and holds the stream. */
    ghost predicate Ready()
      reads this, acc, customSecret, buffer
    {
      && Valid()
      && mode.Some?
      && KeyedFor(mode.value)
      && totalLen == Wrap64(|stream|)
      && Holds(kernel, LongSecret(mode.value), stream, buffer[..], bufferedSize, Progress(acc[..], nbStripesSoFar))
    }

    ghost predicate KeyedFor(m: Mode)
      reads this`seed, this`extSecret, this`useSeed, this`nbStripesPerBlock, this`secretLimit, customSecret
    {
      && SecretInUse() == LongSecret(m)
      && nbStripesPerBlock == StripesPerBlock(LongSecret(m))
      && secretLimit == |LongSecret(m)| - 64
      && seed == ShortKey(m).1
      && (useSeed ==> ShortKey(m).0 == KSecret())
      && (!useSeed ==> seed == 0 && ShortKey(m).0 == LongSecret(m))
    }

    function SecretInUse(): Bytes
      reads this`extSecret, customSecret
    {
      if extSecret.None? then customSecret[..] else extSecret.value
    }

    /** Memory as createState leaves it: everything arbitrary but the two fields that XXH3_INITSTATE sets. */
    constructor (k: Kernel)
      ensures Valid() && kernel == k && mode == None
      ensures seed == 0 && extSecret == None
      ensures fresh(acc) && fresh(customSecret) && fresh(buffer)
    {
      kernel := k;
      acc := new bv64[8];
      customSecret := new Byte[192];
      buffer := new Byte[256];
      bufferedSize, useSeed, nbStripesSoFar, totalLen, nbStripesPerBlock, secretLimit := *, *, *, *, *, *;
      seed := 0;
      extSecret := None;
      mode := None;
      stream := [];
    }

    method ResetInternal(newSeed: bv64, secret: Option<Bytes>, secretSize: nat)
      requires Layout()
      requires secret.None? && newSeed != 0 ==> customSecret[..] == SecretFromSeed(newSeed)
      modifies this, acc
      ensures Valid() && KeyingNow() == Keying(newSeed, secret, old(customSecret[..]))
      ensures bufferedSize == 0 && nbStripesSoFar == 0 && totalLen == 0 && useSeed == (newSeed != 0)
      ensures acc[..] == INIT_ACC
      ensures secretLimit == (secretSize - 64) % TWO_64 && nbStripesPerBlock == secretLimit / 8
      ensures stream == [] && mode == None
    {
      hide SecretFromSeed;
      bufferedSize, useSeed, nbStripesSoFar, totalLen := 0, false, 0, 0;
      forall i | 0 <= i < 8 { acc[i] := INIT_ACC[i]; }
      assert acc[..] == INIT_ACC;
      seed := newSeed;
      useSeed := newSeed != 0;
      extSecret := secret;
      secretLimit := (secretSize - 64) % TWO_64;
      nbStripesPerBlock := secretLimit / 8;
      stream := [];
      mode := None;
    }

    method ResetDefault() returns (status: Status)
      requires Valid()
      modifies this, acc
      ensures KeyingNow() == Keyed(old(KeyingNow()), Reset.ResetDefault)
      ensures status == Ok && Ready() && mode == Some(Default) && stream == []
    {
      hide KSecret, SecretFromSeed, Step;
      ResetInternal(0, Some(KSecret()), 192);
      mode := Some(Default);
      status := Ok;
    }

    method ResetWithSecret(secret: Option<Bytes>, secretSize: nat) returns (status: Status)
      requires Valid()
      requires secretSize < TWO_64 && (secret.Some? ==> |secret.value| == secretSize)
      modifies this, acc
      ensures KeyingNow() == Keyed(old(KeyingNow()), Reset.ResetWithSecret(secret))
      ensures Valid() && mode == ModeOf(Reset.ResetWithSecret(secret)) && stream == []
      ensures status == if mode.Some? then Ok else Error
      ensures status == Ok ==> Ready()
    {
      hide KSecret, SecretFromSeed, Step;
      ResetInternal(0, secret, secretSize);
      if secret.None? { return Error; }
      if secretSize < 136 { return Error; }
      mode := Some(WithSecret(secret.value));
      return Ok;
    }

    method ResetWithSeed(newSeed: bv64) returns (status: Status)
      requires Valid()
      modifies this, acc, customSecret
      ensures KeyingNow() == Keyed(old(KeyingNow()), Reset.ResetWithSeed(newSeed))
      ensures status == Ok && Ready() && mode == Some(WithSeed(newSeed)) && stream == []
    {
      hide KSecret, SecretFromSeed, Step;
      if newSeed == 0 {
        status := ResetDefault();
        mode := Some(WithSeed(0));
        return;
      }
      if newSeed != seed || extSecret.Some? {
        InitCustomSecret(customSecret, newSeed);
      }
      ResetInternal(newSeed, None, 192);
      mode := Some(WithSeed(newSeed));
      status := Ok;
    }

    method ResetWithSecretAndSeed(secret: Option<Bytes>, secretSize: nat, newSeed: bv64) returns (status: Status)
      requires Valid()
      requires secretSize < TWO_64 && (secret.Some? ==> |secret.value| == secretSize)
      modifies this, acc
      ensures KeyingNow() == Keyed(old(KeyingNow()), Reset.ResetWithSecretAndSeed(secret, newSeed))
      ensures var m := ModeOf(Reset.ResetWithSecretAndSeed(secret, newSeed));
              if m.None? then status == Error && unchanged(this) && unchanged(acc)
              else status == Ok && Ready() && mode == m && stream == []
    {
      hide KSecret, SecretFromSeed, Step;
      if secret.None? { return Error; }
      if secretSize < 136 { return Error; }
      ResetInternal(newSeed, secret, secretSize);
      useSeed := true;
      mode := Some(WithSecretAndSeed(secret.value, newSeed));
      status := Ok;
    }

    /** Receives input: buffers it, or completes and folds the buffer, then folds straight from the
        input all whole stripes that end before its last byte, and buffers the rest. */
    method Update(input: Bytes)
      requires Ready()
      modifies this, acc, buffer
      ensures Ready() && mode == old(mode) && KeyingNow() == old(KeyingNow())
      ensures stream == old(stream) + input
    {
      hide KSecret, SecretFromSeed, Run, LongSecret, CacheSound, KeyedFor, Holds, Wrap64, StripesPerBlock;
      KeyedSecret();
      WrapsOnce64(|stream|, |input|);
      totalLen := Wrap64(totalLen + |input|);
      if |input| <= 256 - bufferedSize {
        HoldsMore(kernel, LongSecret(mode.value), stream, buffer[..], bufferedSize,
                  Progress(acc[..], nbStripesSoFar), input);
        CopyInto(buffer, bufferedSize, input);
        bufferedSize := bufferedSize + |input|;
      } else {
        FoldAndBuffer(SecretInUse(), input);
      }
      stream := stream + input;
    }

    /** Update past the end of the buffer. */
    method FoldAndBuffer(secret: Secret, input: Bytes)
      requires Layout() && bufferedSize <= 256 < bufferedSize + |input|
      requires nbStripesPerBlock == StripesPerBlock(secret) && secretLimit == |secret| - 64
      requires Holds(kernel, secret, stream, buffer[..], bufferedSize, Progress(acc[..], nbStripesSoFar))
      modifies this`bufferedSize, this`nbStripesSoFar, acc, buffer
      ensures Holds(kernel, secret, stream + input, buffer[..], bufferedSize, Progress(acc[..], nbStripesSoFar))
    {
      hide Run, Holds, Folded, StripesPerBlock;
      HeldFolded(kernel, secret, stream, buffer[..], bufferedSize, Progress(acc[..], nbStripesSoFar), input);
      ghost var all, done := stream + input, |stream| - bufferedSize;
      var rest := input;
      if bufferedSize != 0 {
        rest := FoldBuffer(secret, input, done);
        done := done + 256;
      } else {
        assert all[0..] == input;
      }
      FoldRest(secret, all, rest, done);
    }

    /** What is left once the buffer is empty. */
    method FoldRest(secret: Secret, ghost all: Bytes, input: Bytes, ghost done: nat)
      requires Layout() && bufferedSize == 0 && done < |all| && input == all[done..] && |all| > 256
      requires nbStripesPerBlock == StripesPerBlock(secret) && secretLimit == |secret| - 64
      requires Folded(kernel, secret, all, done, Progress(acc[..], nbStripesSoFar))
      requires |input| <= 256 ==> done >= 64 && buffer[192..] == all[done - 64..done]
      modifies this`bufferedSize, this`nbStripesSoFar, acc, buffer
      ensures Holds(kernel, secret, all, buffer[..], bufferedSize, Progress(acc[..], nbStripesSoFar))
    {
      hide Run, Holds, Folded, StripesPerBlock;
      if |input| > 256 {
        var rest: Bytes;
        ghost var done': nat;
        rest, done' := FoldInput(secret, all, input, done);
        KeepRest(secret, all, rest, done');
      } else {
        KeepRest(secret, all, input, done);
      }
    }

    /** Update's last part: what is left goes to the start of the buffer. */
    method KeepRest(secret: Secret, ghost all: Bytes, rest: Bytes, ghost done: nat)
      requires Layout() && 64 <= done <= |all| && rest == all[done..] && 0 < |rest| <= 256 < |all|
      requires Folded(kernel, secret, all, done, Progress(acc[..], nbStripesSoFar))
      requires buffer[192..] == all[done - 64..done]
      modifies this`bufferedSize, buffer
      ensures Holds(kernel, secret, all, buffer[..], bufferedSize, Progress(acc[..], nbStripesSoFar))
    {
      hide Run, Holds, Folded;
      HoldsRest(kernel, secret, all, buffer[..], done, Progress(acc[..], nbStripesSoFar));
      ghost var was := buffer[..];
      CopyInto(buffer, 0, rest);
      assert buffer[..] == rest + was[|rest|..];
      bufferedSize := |rest|;
    }

    lemma KeyedSecret()
      requires Ready()
      ensures SecretInUse() == LongSecret(mode.value)
      ensures nbStripesPerBlock == StripesPerBlock(LongSecret(mode.value)) && secretLimit == |SecretInUse()| - 64
      ensures bufferedSize <= 256
    {
    }

    /** Update's first part: the buffer is completed from the input and folded. */
    method FoldBuffer(secret: Secret, input: Bytes, ghost done: nat) returns (rest: Bytes)
      requires Layout() && 0 < bufferedSize <= 256 < bufferedSize + |input|
      requires nbStripesPerBlock == StripesPerBlock(secret) && secretLimit == |secret| - 64
      requires done + bufferedSize == |stream| && buffer[..bufferedSize] == stream[done..]
      requires Folded(kernel, secret, stream + input, done, Progress(acc[..], nbStripesSoFar))
      modifies this`bufferedSize, this`nbStripesSoFar, acc, buffer
      ensures bufferedSize == 0 && done + 256 < |stream + input|
      ensures rest == (stream + input)[done + 256..]
      ensures Folded(kernel, secret, stream + input, done + 256, Progress(acc[..], nbStripesSoFar))
      ensures buffer[192..] == (stream + input)[done + 192..done + 256]
    {
      hide Step, Run, Folded;
      ghost var all := stream + input;
      var loadSize := 256 - bufferedSize;
      ghost var front := buffer[..bufferedSize];
      Filled(front, stream, input, done);
      CopyInto(buffer, bufferedSize, input[..loadSize]);
      rest := input[loadSize..];
      assert buffer[..] == front + input[..loadSize];
      FoldedMore(kernel, secret, all, done, Progress(acc[..], nbStripesSoFar), buffer[..], 4);
      var read: nat;
      nbStripesSoFar, read := ConsumeStripes(kernel, acc, nbStripesSoFar, nbStripesPerBlock, buffer[..], 4,
                                             secret, secretLimit);
      bufferedSize := 0;
    }

    /** Update's second part: whole stripes are folded from the input, and the last one kept. */
    method FoldInput(secret: Secret, ghost all: Bytes, input: Bytes, ghost done: nat)
      returns (rest: Bytes, ghost done': nat)
      requires Layout() && |input| > 256 && done <= |all| && input == all[done..]
      requires nbStripesPerBlock == StripesPerBlock(secret) && secretLimit == |secret| - 64
      requires Folded(kernel, secret, all, done, Progress(acc[..], nbStripesSoFar))
      modifies this`nbStripesSoFar, acc, buffer
      ensures 64 <= done' < |all| <= done' + 256 && rest == all[done'..]
      ensures Folded(kernel, secret, all, done', Progress(acc[..], nbStripesSoFar))
      ensures buffer[192..] == all[done' - 64..done']
    {
      hide Step, Run, Folded;
      var nbStripes := (|input| - 1) / 64;
      FoldedMore(kernel, secret, all, done, Progress(acc[..], nbStripesSoFar), input, nbStripes);
      var read: nat;
      nbStripesSoFar, read := ConsumeStripes(kernel, acc, nbStripesSoFar, nbStripesPerBlock, input, nbStripes,
                                             secret, secretLimit);
      CopyInto(buffer, 256 - 64, input[read - 64..read]);
      rest := input[read..];
      done' := done + read;
    }

    /** Folds the stripes that are still buffered. */
    method FoldBuffered(secret: Secret, lanes: array<bv64>, ghost done: nat) returns (lastStripe: Stripe, ghost soFar: nat)
      requires Layout() && 64 <= bufferedSize <= 256 && lanes.Length == 8
      requires nbStripesPerBlock == StripesPerBlock(secret) && secretLimit == |secret| - 64
      requires done + bufferedSize == |stream| && buffer[..bufferedSize] == stream[done..]
      requires Folded(kernel, secret, stream, done, Progress(lanes[..], nbStripesSoFar))
      modifies lanes
      ensures Folded(kernel, secret, stream, 64 * ((|stream| - 1) / 64), Progress(lanes[..], soFar))
      ensures lastStripe == stream[|stream| - 64..]
    {
      hide Step, Run, StripesPerBlock, Folded;
      FoldedWhole(kernel, secret, stream, done, Progress(lanes[..], nbStripesSoFar));
      var nbStripes := (bufferedSize - 1) / 64;
      SamePrefix(buffer[..], stream, bufferedSize, done, 64 * nbStripes);
      FoldedMore(kernel, secret, stream, done, Progress(lanes[..], nbStripesSoFar), buffer[..], nbStripes);
      var read: nat;
      soFar, read := ConsumeStripes(kernel, lanes, nbStripesSoFar, nbStripesPerBlock, buffer[..], nbStripes, secret, secretLimit);
      lastStripe := buffer[bufferedSize - 64..bufferedSize];
      assert lastStripe == stream[done..][bufferedSize - 64..];
      WholeStripes(done, bufferedSize);
    }

    /** Folds what the state has not folded yet into a copy of the lanes, and the last 64 bytes after it. */
    method DigestLong(secret: Secret) returns (lanes: array<bv64>)
      requires Ready() && secret == LongSecret(mode.value) && |stream| > 240
      ensures fresh(lanes) && lanes.Length == 8 && lanes[..] == LongAcc(kernel, secret, stream)
    {
      hide KSecret, SecretFromSeed, Step, Run, LongSecret, CacheSound, KeyedFor, StripesPerBlock;
      KeyedSecret();
      lanes := new bv64[8](i requires 0 <= i < 8 reads this, acc => acc[i]);
      assert lanes[..] == acc[..];
      var lastStripe: Stripe;
      ghost var done := |stream| - bufferedSize;
      if bufferedSize >= 64 {
        ghost var soFar: nat;
        lastStripe, soFar := FoldBuffered(secret, lanes, done);
      } else {
        var catchupSize := 64 - bufferedSize;
        assert bufferedSize > 0;
        lastStripe := buffer[256 - catchupSize..] + buffer[..bufferedSize];
        assert 64 * ((|stream| - 1) / 64) == done;
        CaughtUp(buffer[..], stream, bufferedSize);
      }
      Accumulate512(kernel, lanes, lastStripe, secret[secretLimit - 7..secretLimit - 7 + 64]);
    }

    /** The hash of everything received since the reset, as the one-shot function computes it, unless
        the 64-bit total has wrapped to look like a short input's. */
    method Digest<T>(w: Width<T>) returns (h: T)
      requires Ready()
      ensures (Wrap64(|stream|) > 240 <==> |stream| > 240) ==> h == Hash(w, kernel, mode.value, stream)
    {
      hide KSecret, SecretFromSeed, LongAcc, Run, CacheSound, LengthWord64, Wrap64;
      LengthWraps64(|stream|);
      var secret: Secret := SecretInUse();
      if totalLen > 240 {
        var lanes := DigestLong(secret);
        return w.finalizeLong(lanes[..], secret, LengthWord64(totalLen));
      }
      if useSeed {
        return w.short(buffer[..totalLen], KSecret(), seed);
      }
      return w.short(buffer[..totalLen], secret, 0);
    }
  }
}
