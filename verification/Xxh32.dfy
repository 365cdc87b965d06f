/** XXH32: four lanes over sixteen-byte stripes, a merge, a tail, an avalanche. */
module Xxh32 {
  import opened Leftover
  import opened Mixing
  import opened Words

  type Lanes = s: seq<bv32> | |s| == 4 witness [0, 0, 0, 0]

  function Round(acc: bv32, input: bv32): bv32 {
    Mul32(Rotl32(Add32(acc, Mul32(input, 0x85EBCA77)), 13), 0x9E3779B1)
  }

  function Avalanche(hash: bv32): bv32 {
    XorShr32(Mul32(XorShr32(Mul32(XorShr32(hash, 15), 0x85EBCA77), 13), 0xC2B2AE3D), 16)
  }

  function InitAccs(seed: bv32): Lanes {
    [seed + 0x9E3779B1 + 0x85EBCA77, seed + 0x85EBCA77, seed, seed - 0x9E3779B1]
  }

  type Stripe = s: Bytes | |s| == 16 witness seq(16, _ => 0)

  /** Each lane takes its own word of the stripe. */
  function StripeRound(acc: Lanes, stripe: Stripe): Lanes {
    [Round(acc[0], ReadLE32(stripe[0..4])), Round(acc[1], ReadLE32(stripe[4..8])),
     Round(acc[2], ReadLE32(stripe[8..12])), Round(acc[3], ReadLE32(stripe[12..16]))]
  }

  /** The lanes after all the whole stripes of the input. */
  function Consumed(acc: Lanes, data: Bytes): Lanes
    decreases |data|
  {
    if |data| < 16 then acc else Consumed(StripeRound(acc, data[..16]), data[16..])
  }

  function MergeAccs(acc: Lanes): bv32 {
    Add32(Add32(Add32(Rotl32(acc[0], 1), Rotl32(acc[1], 7)), Rotl32(acc[2], 12)), Rotl32(acc[3], 18))
  }

  function Process1(hash: bv32, b: Byte): bv32 {
    Mul32(Rotl32(Add32(hash, Mul32(b as bv32, 0x165667B1)), 11), 0x9E3779B1)
  }

  function Process4(hash: bv32, word: bv32): bv32 {
    Mul32(Rotl32(Add32(hash, Mul32(word, 0xC2B2AE3D)), 17), 0x27D4EB2F)
  }

  /** The tail: whole words, then single bytes. */
  function Tail(hash: bv32, tail: Bytes): bv32
    decreases |tail|
  {
    if |tail| >= 4 then Tail(Process4(hash, ReadLE32(tail[..4])), tail[4..])
    else if |tail| > 0 then Tail(Process1(hash, tail[0]), tail[1..])
    else hash
  }

  /** What the lanes, or the seed of an input too short for them, amount to before the tail. */
  function Body(data: Bytes, seed: bv32): bv32 {
    Add32(if |data| >= 16 then MergeAccs(Consumed(InitAccs(seed), data)) else Add32(seed, 0x165667B1),
          LengthWord32(|data|))
  }

  /** The hash as a function of the input. */
  function Hash(data: Bytes, seed: bv32): bv32 {
    Avalanche(Tail(Body(data, seed), Rest(16, data)))
  }

  /** Consuming more continues from the lanes and the rest. */
  lemma {:induction false} ConsumedConcat(acc: Lanes, a: Bytes, b: Bytes)
    ensures Consumed(acc, a + b) == Consumed(Consumed(acc, a), Rest(16, a) + b)
    decreases |a|
  {
    hide StripeRound;
    if |a| >= 16 {
      assert (a + b)[..16] == a[..16] && (a + b)[16..] == a[16..] + b;
      ConsumedConcat(StripeRound(acc, a[..16]), a[16..], b);
    }
  }

  // ---- The code ----

  method RoundInPlace(acc: array<bv32>, stripe: Stripe)
    requires acc.Length == 4
    modifies acc
    ensures acc[..] == StripeRound(old(acc[..]), stripe)
  {
    hide Round, ReadLE32;
    acc[0] := Round(acc[0], ReadLE32(stripe[0..4]));
    acc[1] := Round(acc[1], ReadLE32(stripe[4..8]));
    acc[2] := Round(acc[2], ReadLE32(stripe[8..12]));
    acc[3] := Round(acc[3], ReadLE32(stripe[12..16]));
  }

  /** Consumes whole stripes while at least sixteen bytes are left; returns what is left. */
  method ConsumeLong(acc: array<bv32>, input: Bytes) returns (rest: Bytes)
    requires acc.Length == 4 && |input| >= 16
    modifies acc
    ensures acc[..] == Consumed(old(acc[..]), input) && rest == Rest(16, input)
  {
    hide StripeRound;
    rest := input;
    while true
      invariant |rest| >= 16
      invariant Consumed(acc[..], rest) == Consumed(old(acc[..]), input) && Rest(16, rest) == Rest(16, input)
      decreases |rest|
    {
      RoundInPlace(acc, rest[..16]);
      rest := rest[16..];
      if !(|rest| > 15) { break; }
    }
  }

  /** The rerolled finaliser. */
  method FinalizeLoop(hash: bv32, tail: Bytes) returns (h: bv32)
    requires |tail| < 16
    ensures h == Avalanche(Tail(hash, tail))
  {
    hide Process1, Process4, Avalanche;
    h := hash;
    var rest := tail;
    while |rest| >= 4
      invariant Tail(h, rest) == Tail(hash, tail)
      decreases |rest|
    {
      h := Process4(h, ReadLE32(rest[..4]));
      rest := rest[4..];
    }
    while |rest| > 0
      invariant |rest| < 4 && Tail(h, rest) == Tail(hash, tail)
      decreases |rest|
    {
      h := Process1(h, rest[0]);
      rest := rest[1..];
    }
    h := Avalanche(h);
  }

  /** The jump-table finaliser: the row entered by the switch fixes how many words are processed on
      the way down its column, and the column how many bytes follow them. */
  method FinalizeJumpTable(hash: bv32, tail: Bytes) returns (h: bv32)
    requires |tail| < 16
    ensures h == Avalanche(Tail(hash, tail))
  {
    hide Process1, Process4, Avalanche, ReadLE32, Tail;
    var row, column := |tail|, |tail| % 4;
    var p := tail;
    h := hash;
    if row >= 12 { h, p := TakeWord(h, p); } // cases 12 to 15 enter here,
    if row >= 8 { h, p := TakeWord(h, p); }  // 8 to 11 here,
    if row >= 4 { h, p := TakeWord(h, p); }  // 4 to 7 here
    if column == 3 { h, p := TakeByte(h, p); } // 15, 11, 7 and 3 process three bytes,
    if column >= 2 { h, p := TakeByte(h, p); } // 14, 10, 6 and 2 two,
    if column >= 1 { h, p := TakeByte(h, p); } // 13, 9, 5 and 1 one
    NoTail(h);
    return Avalanche(h);
  }

  method TakeWord(h: bv32, p: Bytes) returns (h': bv32, p': Bytes)
    requires |p| >= 4
    ensures Tail(h', p') == Tail(h, p) && |p'| == |p| - 4
  {
    h', p' := Process4(h, ReadLE32(p[..4])), p[4..];
  }

  method TakeByte(h: bv32, p: Bytes) returns (h': bv32, p': Bytes)
    requires 0 < |p| < 4
    ensures Tail(h', p') == Tail(h, p) && |p'| == |p| - 1
  {
    h', p' := Process1(h, p[0]), p[1..];
  }

  lemma NoTail(h: bv32)
    ensures Tail(h, []) == h
  {
  }

  /** The one-shot hash, as it runs. */
  method Xxh32(input: Bytes, seed: bv32) returns (h: bv32)
    ensures h == Hash(input, seed)
  {
    hide Tail, MergeAccs, Avalanche, LengthWord32, Consumed;
    var rest := input;
    var h32: bv32;
    if |input| >= 16 {
      var init := InitAccs(seed);
      var acc := new bv32[4](j requires 0 <= j < 4 => init[j]);
      assert acc[..] == init;
      rest := ConsumeLong(acc, input);
      h32 := MergeAccs(acc[..]);
    } else {
      h32 := Add32(seed, 0x165667B1);
    }
    h32 := Add32(h32, LengthWord32(|input|));
    h := FinalizeLoop(h32, rest);
  }

  /** The lanes have consumed all whole stripes, and the front of the buffer is the rest. */
  ghost predicate Holds(init: Lanes, stream: Bytes, lanes: Lanes, buffer: Bytes, bufferedSize: nat) {
    && bufferedSize < 16 == |buffer|
    && lanes == Consumed(init, stream)
    && buffer[..bufferedSize] == Rest(16, stream)
  }

  class State {
    var totalLen32: nat
    var largeLen: bool
    const acc: array<bv32>
    const buffer: array<Byte>
    var bufferedSize: nat
    ghost var seed: bv32
    ghost var stream: Bytes

    /** The flag knows whether the lanes are in use even when the 32-bit total has wrapped. */
    ghost predicate Valid()
      reads this, acc, buffer
    {
      && acc.Length == 4 && buffer.Length == 16
      && Holds(InitAccs(seed), stream, acc[..], buffer[..], bufferedSize)
      && totalLen32 == Wrap32(|stream|)
      && (largeLen <==> |stream| >= 16)
    }

    /** reset: everything zeroed but the lanes. */
    constructor (seed: bv32)
      ensures Valid() && this.seed == seed && stream == []
      ensures fresh(acc) && fresh(buffer)
    {
      hide StripeRound, InitAccs;
      var init := InitAccs(seed);
      totalLen32, largeLen, bufferedSize := 0, false, 0;
      acc := new bv32[4](j requires 0 <= j < 4 => init[j]);
      buffer := new Byte[16](_ => 0);
      this.seed := seed;
      stream := [];
      new;
      assert acc[..] == init;
    }

    method Update(input: Bytes)
      requires Valid()
      modifies this, acc, buffer
      ensures Valid() && seed == old(seed) && stream == old(stream) + input
    {
      hide Holds, InitAccs, Wrap32;
      var len := |input|;
      WrapsOnce32(|stream|, len);
      HeldInBuffer(InitAccs(seed), stream, acc[..], buffer[..], bufferedSize, input);
      totalLen32 := Wrap32(totalLen32 + len);
      largeLen := largeLen || len >= 16 || totalLen32 >= 16;
      if len < 16 - bufferedSize {
        CopyInto(buffer, bufferedSize, input);
        bufferedSize := bufferedSize + len;
      } else {
        ConsumeAndBuffer(input);
      }
      stream := stream + input;
    }

    /** Update past the end of the buffer. */
    method ConsumeAndBuffer(input: Bytes)
      requires acc.Length == 4 && buffer.Length == 16
      requires Holds(InitAccs(seed), stream, acc[..], buffer[..], bufferedSize) && bufferedSize + |input| >= 16
      modifies this`bufferedSize, acc, buffer
      ensures Holds(InitAccs(seed), stream + input, acc[..], buffer[..], bufferedSize)
    {
      hide Consumed, InitAccs, Rest;
      ghost var init, all := InitAccs(seed), stream + input;
      ConsumedConcat(init, stream, input);
      RestConcat(16, stream, input);
      var rest := input;
      assert bufferedSize == 0 ==> buffer[..bufferedSize] + input == input;
      if bufferedSize != 0 {
        OneStripe(acc[..], buffer[..bufferedSize], input);
        ghost var stripe := buffer[..bufferedSize] + input[..16 - bufferedSize];
        CopyInto(buffer, bufferedSize, rest[..16 - bufferedSize]);
        assert buffer[..] == stripe;
        rest := rest[16 - bufferedSize..];
        var _ := ConsumeLong(acc, buffer[..]);
        bufferedSize := 0;
      }
      assert Consumed(init, all) == Consumed(acc[..], rest) && Rest(16, all) == Rest(16, rest);
      if |rest| >= 16 {
        rest := ConsumeLong(acc, rest);
      } else {
        TooShort(acc[..], rest);
      }
      if |rest| > 0 {
        CopyInto(buffer, 0, rest);
        bufferedSize := |rest|;
      }
    }

    /** What is buffered is the last total mod 16 bytes of the stream. */
    lemma BufferedBytes()
      requires Valid()
      ensures bufferedSize == |stream| % 16
      ensures buffer[..bufferedSize] == stream[|stream| - |stream| % 16..]
    {
      hide Consumed;
      RestLength(16, stream);
    }

    method Digest() returns (h: bv32)
      requires Valid()
      ensures h == Hash(stream, seed)
    {
      hide Tail, MergeAccs, Avalanche, Consumed, Rest, LengthWord32, Wrap32;
      if |stream| < 16 { TooShort(InitAccs(seed), stream); }
      var h32 := if largeLen then MergeAccs(acc[..]) else Add32(acc[2], 0x165667B1);
      h32 := Add32(h32, LengthWord32(totalLen32));
      LengthWraps32(|stream|);
      h := FinalizeLoop(h32, buffer[..bufferedSize]);
    }
  }

  /** Input that does not complete a stripe only lengthens the rest. */
  lemma HeldInBuffer(init: Lanes, stream: Bytes, lanes: Lanes, buffer: Bytes, bufferedSize: nat, input: Bytes)
    requires Holds(init, stream, lanes, buffer, bufferedSize)
    ensures bufferedSize < 16
    ensures bufferedSize + |input| < 16 ==>
              Holds(init, stream + input, lanes,
                    buffer[..bufferedSize] + input + buffer[bufferedSize + |input|..], bufferedSize + |input|)
  {
    hide StripeRound;
    ConsumedConcat(init, stream, input);
    RestConcat(16, stream, input);
    if bufferedSize + |input| < 16 {
      TooShort(lanes, buffer[..bufferedSize] + input);
      assert (buffer[..bufferedSize] + input + buffer[bufferedSize + |input|..])[..bufferedSize + |input|]
             == buffer[..bufferedSize] + input;
    }
  }

  lemma TooShort(acc: Lanes, data: Bytes)
    requires |data| < 16
    ensures Consumed(acc, data) == acc && Rest(16, data) == data
  {
  }

  /** A stripe completed from the buffered bytes and the input. */
  lemma OneStripe(acc: Lanes, buffered: Bytes, input: Bytes)
    requires |buffered| < 16 <= |buffered| + |input|
    ensures var stripe, rest := buffered + input[..16 - |buffered|], input[16 - |buffered|..];
            && Consumed(acc, buffered + input) == Consumed(Consumed(acc, stripe), rest)
            && Rest(16, buffered + input) == Rest(16, rest)
  {
    hide StripeRound;
    var stripe, rest := buffered + input[..16 - |buffered|], input[16 - |buffered|..];
    assert buffered + input == stripe + rest;
    ConsumedConcat(acc, stripe, rest);
    RestConcat(16, stripe, rest);
    assert Rest(16, stripe) == [] && [] + rest == rest;
  }
}
