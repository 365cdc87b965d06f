/** XXH64: four lanes over 32-byte stripes, a merge, a tail, an avalanche. */
module Xxh64 {
  import opened Leftover
  import opened Mixing
  import opened Words

  type Lanes = s: seq<bv64> | |s| == 4 witness [0, 0, 0, 0]

  function Round(acc: bv64, input: bv64): bv64 {
    Mul64(Rotl64(Add64(acc, Mul64(input, 0xC2B2AE3D27D4EB4F)), 31), 0x9E3779B185EBCA87)
  }

  function MergeRound(acc: bv64, val: bv64): bv64 {
    Add64(Mul64(Xor64(acc, Round(0, val)), 0x9E3779B185EBCA87), 0x85EBCA77C2B2AE63)
  }

  function Avalanche(hash: bv64): bv64 {
    XorShr64(Mul64(XorShr64(Mul64(XorShr64(hash, 33), 0xC2B2AE3D27D4EB4F), 29), 0x165667B19E3779F9), 32)
  }

  function InitAccs(seed: bv64): Lanes {
    [seed + 0x9E3779B185EBCA87 + 0xC2B2AE3D27D4EB4F, seed + 0xC2B2AE3D27D4EB4F, seed, seed - 0x9E3779B185EBCA87]
  }

  type Stripe = s: Bytes | |s| == 32 witness seq(32, _ => 0)

  /** Each lane takes its own word of the stripe. */
  function StripeRound(acc: Lanes, stripe: Stripe): Lanes {
    [Round(acc[0], ReadLE64(stripe[0..8])), Round(acc[1], ReadLE64(stripe[8..16])),
     Round(acc[2], ReadLE64(stripe[16..24])), Round(acc[3], ReadLE64(stripe[24..32]))]
  }

  /** The lanes after all the whole stripes of the input. */
  function Consumed(acc: Lanes, data: Bytes): Lanes
    decreases |data|
  {
    if |data| < 32 then acc else Consumed(StripeRound(acc, data[..32]), data[32..])
  }

  function MergeAccs(acc: Lanes): bv64 {
    var h64 := Add64(Add64(Add64(Rotl64(acc[0], 1), Rotl64(acc[1], 7)), Rotl64(acc[2], 12)), Rotl64(acc[3], 18));
    MergeRound(MergeRound(MergeRound(MergeRound(h64, acc[0]), acc[1]), acc[2]), acc[3])
  }

  function Process8(hash: bv64, word: bv64): bv64 {
    Add64(Mul64(Rotl64(Xor64(hash, Round(0, word)), 27), 0x9E3779B185EBCA87), 0x85EBCA77C2B2AE63)
  }

  function Process4(hash: bv64, word: bv32): bv64 {
    Add64(Mul64(Rotl64(Xor64(hash, Mul64(word as bv64, 0x9E3779B185EBCA87)), 23), 0xC2B2AE3D27D4EB4F), 0x165667B19E3779F9)
  }

  function Process1(hash: bv64, b: Byte): bv64 {
    Mul64(Rotl64(Xor64(hash, Mul64(b as bv64, 0x27D4EB2F165667C5)), 11), 0x9E3779B185EBCA87)
  }

  /** The tail: whole 64-bit words, then a 32-bit word if one fits, then single bytes. */
  function Tail(hash: bv64, tail: Bytes): bv64
    decreases |tail|
  {
    if |tail| >= 8 then Tail(Process8(hash, ReadLE64(tail[..8])), tail[8..])
    else if |tail| >= 4 then Tail(Process4(hash, ReadLE32(tail[..4])), tail[4..])
    else if |tail| > 0 then Tail(Process1(hash, tail[0]), tail[1..])
    else hash
  }

  /** What the lanes, or the seed of an input too short for them, amount to before the tail. */
  function Body(data: Bytes, seed: bv64): bv64 {
    Add64(if |data| >= 32 then MergeAccs(Consumed(InitAccs(seed), data)) else Add64(seed, 0x27D4EB2F165667C5),
          LengthWord64(|data|))
  }

  /** The hash as a function of the input. */
  function Hash(data: Bytes, seed: bv64): bv64 {
    Avalanche(Tail(Body(data, seed), Rest(32, data)))
  }

  /** Consuming more continues from the lanes and the rest. */
  lemma {:induction false} ConsumedConcat(acc: Lanes, a: Bytes, b: Bytes)
    ensures Consumed(acc, a + b) == Consumed(Consumed(acc, a), Rest(32, a) + b)
    decreases |a|
  {
    hide StripeRound;
    if |a| >= 32 {
      assert (a + b)[..32] == a[..32] && (a + b)[32..] == a[32..] + b;
      ConsumedConcat(StripeRound(acc, a[..32]), a[32..], b);
    }
  }

  // ---- The code ----

  method RoundInPlace(acc: array<bv64>, stripe: Stripe)
    requires acc.Length == 4
    modifies acc
    ensures acc[..] == StripeRound(old(acc[..]), stripe)
  {
    hide Round, ReadLE64;
    acc[0] := Round(acc[0], ReadLE64(stripe[0..8]));
    acc[1] := Round(acc[1], ReadLE64(stripe[8..16]));
    acc[2] := Round(acc[2], ReadLE64(stripe[16..24]));
    acc[3] := Round(acc[3], ReadLE64(stripe[24..32]));
  }

  /** Consumes whole stripes while at least 32 bytes are left; returns what is left. */
  method ConsumeLong(acc: array<bv64>, input: Bytes) returns (rest: Bytes)
    requires acc.Length == 4 && |input| >= 32
    modifies acc
    ensures acc[..] == Consumed(old(acc[..]), input) && rest == Rest(32, input)
  {
    hide StripeRound;
    rest := input;
    while true
      invariant |rest| >= 32
      invariant Consumed(acc[..], rest) == Consumed(old(acc[..]), input) && Rest(32, rest) == Rest(32, input)
      decreases |rest|
    {
      RoundInPlace(acc, rest[..32]);
      rest := rest[32..];
      if !(|rest| > 31) { break; }
    }
  }

  /** The finaliser; of a longer length it looks at the part modulo 32 alone. */
  method Finalize(hash: bv64, tail: Bytes) returns (h: bv64)
    requires |tail| < 32
    ensures h == Avalanche(Tail(hash, tail))
  {
    hide Process1, Process4, Process8, Avalanche, ReadLE32, ReadLE64;
    h := hash;
    var rest := tail;
    while |rest| >= 8
      invariant Tail(h, rest) == Tail(hash, tail)
      decreases |rest|
    {
      h := Process8(h, ReadLE64(rest[..8]));
      rest := rest[8..];
    }
    if |rest| >= 4 {
      h := Process4(h, ReadLE32(rest[..4]));
      rest := rest[4..];
    }
    while |rest| > 0
      invariant |rest| < 4 && Tail(h, rest) == Tail(hash, tail)
      decreases |rest|
    {
      h := Process1(h, rest[0]);
      rest := rest[1..];
    }
    h := Avalanche(h);
  }

  /** The one-shot hash, as it runs. */
  method Xxh64(input: Bytes, seed: bv64) returns (h: bv64)
    ensures h == Hash(input, seed)
  {
    hide Tail, MergeAccs, Avalanche, LengthWord64, Consumed;
    var rest := input;
    var h64: bv64;
    if |input| >= 32 {
      var init := InitAccs(seed);
      var acc := new bv64[4](j requires 0 <= j < 4 => init[j]);
      assert acc[..] == init;
      rest := ConsumeLong(acc, input);
      h64 := MergeAccs(acc[..]);
    } else {
      h64 := Add64(seed, 0x27D4EB2F165667C5);
    }
    h64 := Add64(h64, LengthWord64(|input|));
    h := Finalize(h64, rest);
  }

  /** The lanes have consumed all whole stripes, and the front of the buffer is the rest. */
  ghost predicate Holds(init: Lanes, stream: Bytes, lanes: Lanes, buffer: Bytes, bufferedSize: nat) {
    && bufferedSize < 32 == |buffer|
    && lanes == Consumed(init, stream)
    && buffer[..bufferedSize] == Rest(32, stream)
  }

  class State {
    var totalLen: nat
    const acc: array<bv64>
    const buffer: array<Byte>
    var bufferedSize: nat
    ghost var seed: bv64
    ghost var stream: Bytes

    ghost predicate Valid()
      reads this, acc, buffer
    {
      && acc.Length == 4 && buffer.Length == 32
      && Holds(InitAccs(seed), stream, acc[..], buffer[..], bufferedSize)
      && totalLen == Wrap64(|stream|)
    }

    /** reset: everything zeroed but the lanes. */
    constructor (seed: bv64)
      ensures Valid() && this.seed == seed && stream == []
      ensures fresh(acc) && fresh(buffer)
    {
      hide StripeRound, InitAccs;
      var init := InitAccs(seed);
      totalLen, bufferedSize := 0, 0;
      acc := new bv64[4](j requires 0 <= j < 4 => init[j]);
      buffer := new Byte[32](_ => 0);
      this.seed := seed;
      stream := [];
      new;
      assert acc[..] == init;
    }

    method Update(input: Bytes)
      requires Valid()
      modifies this, acc, buffer
      ensures Valid() && seed == old(seed) && stream == old(stream) + input
    {
      hide Holds, InitAccs, Wrap64;
      var len := |input|;
      WrapsOnce64(|stream|, len);
      HeldInBuffer(InitAccs(seed), stream, acc[..], buffer[..], bufferedSize, input);
      totalLen := Wrap64(totalLen + len);
      if len < 32 - bufferedSize {
        CopyInto(buffer, bufferedSize, input);
        bufferedSize := bufferedSize + len;
      } else {
        ConsumeAndBuffer(input);
      }
      stream := stream + input;
    }

    /** Update past the end of the buffer. */
    method ConsumeAndBuffer(input: Bytes)
      requires acc.Length == 4 && buffer.Length == 32
      requires Holds(InitAccs(seed), stream, acc[..], buffer[..], bufferedSize) && bufferedSize + |input| >= 32
      modifies this`bufferedSize, acc, buffer
      ensures Holds(InitAccs(seed), stream + input, acc[..], buffer[..], bufferedSize)
    {
      hide Consumed, InitAccs, Rest;
      ghost var init, all := InitAccs(seed), stream + input;
      ConsumedConcat(init, stream, input);
      RestConcat(32, stream, input);
      var rest := input;
      assert bufferedSize == 0 ==> buffer[..bufferedSize] + input == input;
      if bufferedSize != 0 {
        OneStripe(acc[..], buffer[..bufferedSize], input);
        ghost var stripe := buffer[..bufferedSize] + input[..32 - bufferedSize];
        CopyInto(buffer, bufferedSize, rest[..32 - bufferedSize]);
        assert buffer[..] == stripe;
        rest := rest[32 - bufferedSize..];
        var _ := ConsumeLong(acc, buffer[..]);
        bufferedSize := 0;
      }
      assert Consumed(init, all) == Consumed(acc[..], rest) && Rest(32, all) == Rest(32, rest);
      if |rest| >= 32 {
        rest := ConsumeLong(acc, rest);
      } else {
        TooShort(acc[..], rest);
      }
      if |rest| > 0 {
        CopyInto(buffer, 0, rest);
        bufferedSize := |rest|;
      }
    }

    /** What is buffered is the last total mod 32 bytes of the stream. */
    lemma BufferedBytes()
      requires Valid()
      ensures bufferedSize == |stream| % 32
      ensures buffer[..bufferedSize] == stream[|stream| - |stream| % 32..]
    {
      hide Consumed;
      RestLength(32, stream);
    }

    /** The total decides between lanes and seed, and its low five bits say how much is buffered. Past
        2^64 bytes the digest is still right as long as the wrapped total falls on the right side. */
    method Digest() returns (h: bv64)
      requires Valid()
      ensures (Wrap64(|stream|) >= 32 <==> |stream| >= 32) ==> h == Hash(stream, seed)
    {
      hide Tail, MergeAccs, Avalanche, Consumed, Rest, LengthWord64, Wrap64;
      if |stream| < 32 { TooShort(InitAccs(seed), stream); }
      LengthWraps64(|stream|);
      LowBitsSurvive(|stream|);
      RestLength(32, stream);
      var h64 := if totalLen >= 32 then MergeAccs(acc[..]) else Add64(acc[2], 0x27D4EB2F165667C5);
      h64 := Add64(h64, LengthWord64(totalLen));
      h := Finalize(h64, buffer[..totalLen % 32]);
    }
  }

  lemma WholeStripesDrop(stripes: nat, len: nat)
    ensures (32 * stripes + len) % 32 == len % 32
  {
  }

  lemma LowBitsSurvive(len: nat)
    ensures Wrap64(len) % 32 == len % 32
  {
    WholeStripesDrop(0x800_0000_0000_0000 * (len / TWO_64), len % TWO_64);
  }

  /** Input that does not complete a stripe only lengthens the rest. */
  lemma HeldInBuffer(init: Lanes, stream: Bytes, lanes: Lanes, buffer: Bytes, bufferedSize: nat, input: Bytes)
    requires Holds(init, stream, lanes, buffer, bufferedSize)
    ensures bufferedSize < 32
    ensures bufferedSize + |input| < 32 ==>
              Holds(init, stream + input, lanes,
                    buffer[..bufferedSize] + input + buffer[bufferedSize + |input|..], bufferedSize + |input|)
  {
    hide StripeRound;
    ConsumedConcat(init, stream, input);
    RestConcat(32, stream, input);
    if bufferedSize + |input| < 32 {
      TooShort(lanes, buffer[..bufferedSize] + input);
      assert (buffer[..bufferedSize] + input + buffer[bufferedSize + |input|..])[..bufferedSize + |input|]
             == buffer[..bufferedSize] + input;
    }
  }

  lemma TooShort(acc: Lanes, data: Bytes)
    requires |data| < 32
    ensures Consumed(acc, data) == acc && Rest(32, data) == data
  {
  }

  /** A stripe completed from the buffered bytes and the input. */
  lemma OneStripe(acc: Lanes, buffered: Bytes, input: Bytes)
    requires |buffered| < 32 <= |buffered| + |input|
    ensures var stripe, rest := buffered + input[..32 - |buffered|], input[32 - |buffered|..];
            && Consumed(acc, buffered + input) == Consumed(Consumed(acc, stripe), rest)
            && Rest(32, buffered + input) == Rest(32, rest)
  {
    hide StripeRound;
    var stripe, rest := buffered + input[..32 - |buffered|], input[32 - |buffered|..];
    assert buffered + input == stripe + rest;
    ConsumedConcat(acc, stripe, rest);
    RestConcat(32, stripe, rest);
    assert Rest(32, stripe) == [] && [] + rest == rest;
  }
}
