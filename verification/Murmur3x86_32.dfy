/** MurmurHash3, 32-bit: one lane, four-byte blocks. */
module Murmur3x86_32 {
  import opened BlockMixer
  import opened Leftover
  import opened Mixing
  import opened Words

  function Scrambled(k: bv32): bv32 {
    Mul32(Rotl32(Mul32(k, 0xCC9E2D51), 15), 0x1B873593)
  }

  function Unscrambled(k: bv32): bv32 {
    Mul32(Rotl32(Mul32(k, 0x56ED309B), 17), 0xDEE13BB1)
  }

  lemma ScrambledUndone(k: bv32)
    ensures Unscrambled(Scrambled(k)) == k && Scrambled(Unscrambled(k)) == k
  {
    hide Mul32, Rotl32;
    Mul32Bycc9e2d51(k);
    Rotl32By15(Mul32(k, 0xCC9E2D51));
    Mul32By1b873593(Rotl32(Mul32(k, 0xCC9E2D51), 15));
    Mul32By1b873593(k);
    Rotl32By15(Mul32(k, 0x56ED309B));
    Mul32Bycc9e2d51(Rotl32(Mul32(k, 0x56ED309B), 17));
  }

  /** What follows the xor with a block. */
  function Stirred(h: bv32): bv32 {
    Add32(Mul32(Rotl32(h, 13), 5), 0xE6546B64)
  }

  function Unstirred(h: bv32): bv32 {
    Rotl32(Mul32(Sub32(h, 0xE6546B64), 0xCCCCCCCD), 19)
  }

  lemma StirredUndone(h: bv32)
    ensures Unstirred(Stirred(h)) == h && Stirred(Unstirred(h)) == h
  {
    hide Mul32, Rotl32, Add32, Sub32;
    Rotl32By13(h);
    Mul32By5(Rotl32(h, 13));
    AddUndone32(Mul32(Rotl32(h, 13), 5), 0xE6546B64);
    AddUndone32(h, 0xE6546B64);
    Mul32By5(Sub32(h, 0xE6546B64));
    Rotl32By13(Mul32(Sub32(h, 0xE6546B64), 0xCCCCCCCD));
  }

  function Step(h: bv32, k: bv32): bv32 { Stirred(Xor32(h, Scrambled(k))) }

  function BlockStep(): Mixer<bv32, bv32> {
    Mixer((h: bv32, k: bv32) => Step(h, k),
          (h: bv32, k: bv32) => Xor32(Unstirred(h), Scrambled(k)),
          (h: bv32, t: bv32) => Unscrambled(Xor32(Unstirred(t), h)))
  }

  lemma BlockStepLawful()
    ensures Lawful(BlockStep())
  {
    hide Stirred, Unstirred, Scrambled, Unscrambled, Xor32;
    var m := BlockStep();
    forall h: bv32, k: bv32
      ensures m.unstep(m.step(h, k), k) == h && m.step(m.unstep(h, k), k) == h
      ensures m.solve(h, m.step(h, k)) == k && m.step(h, m.solve(h, k)) == k
    {
      StirredUndone(Xor32(h, Scrambled(k)));
      StirredUndone(h);
      StirredUndone(k);
      XorUndone32(h, Scrambled(k));
      XorUndone32(Scrambled(k), h);
      XorUndone32(Unstirred(h), Scrambled(k));
      ScrambledUndone(k);
      XorUndone32(Unstirred(k), h);
      ScrambledUndone(Xor32(Unstirred(k), h));
      XorUndone32(h, Xor32(Unstirred(k), h));
    }
  }

  function Blocks(data: Bytes): seq<bv32> {
    if |data| < 4 then [] else [ReadLE32(data[..4])] + Blocks(data[4..])
  }

  lemma {:induction false} BlocksConcat(a: Bytes, b: Bytes)
    requires |a| % 4 == 0
    ensures Blocks(a + b) == Blocks(a) + Blocks(b) && Rest(4, a + b) == Rest(4, b)
  {
    hide ReadLE32;
    if |a| == 0 {
      assert a + b == b;
    } else {
      assert (a + b)[..4] == a[..4] && (a + b)[4..] == a[4..] + b;
      BlocksConcat(a[4..], b);
    }
  }

  function WithTail(h: bv32, tail: Bytes): bv32
    requires |tail| < 4
  {
    if tail == [] then h else Xor32(h, Scrambled(PartLE32(tail)))
  }

  /** The final avalanche. */
  function Fmix(h: bv32): bv32 {
    XorShr32(Mul32(XorShr32(Mul32(XorShr32(h, 16), 0x85EBCA6B), 13), 0xC2B2AE35), 16)
  }

  function Unfmix(h: bv32): bv32 {
    UnXorShr32(Mul32(UnXorShr32(Mul32(UnXorShr32(h, 16), 0x7ED1B41D), 13), 0xA5CB9243), 16)
  }

  lemma FmixUndone(h: bv32)
    ensures Unfmix(Fmix(h)) == h && Fmix(Unfmix(h)) == h
  {
    hide XorShr32, UnXorShr32, Mul32;
    var a := XorShr32(h, 16);
    var b := XorShr32(Mul32(a, 0x85EBCA6B), 13);
    XorShr32By16(h);
    Mul32By85ebca6b(a);
    XorShr32By13(Mul32(a, 0x85EBCA6B));
    Mul32Byc2b2ae35(b);
    XorShr32By16(Mul32(b, 0xC2B2AE35));
    var c := UnXorShr32(h, 16);
    var d := UnXorShr32(Mul32(c, 0x7ED1B41D), 13);
    Mul32Byc2b2ae35(c);
    XorShr32By13(Mul32(c, 0x7ED1B41D));
    Mul32By85ebca6b(d);
    XorShr32By16(Mul32(d, 0xA5CB9243));
  }

  function Finished(h: bv32, tail: Bytes, len: bv32): bv32
    requires |tail| < 4
  {
    Fmix(Xor32(WithTail(h, tail), len))
  }

  /** The hash as a function of the key. */
  function Hash(key: Bytes, seed: bv32): bv32 {
    Finished(BlockMixer.Fold(BlockStep(), seed, Blocks(key)), Rest(4, key), LengthWord32(|key|))
  }

  /** The hash as it runs: blocks, the fall-through switch over the tail, the finalisation. */
  method Murmur3(key: Bytes, seed: bv32) returns (out: bv32)
    ensures out == Hash(key, seed)
  {
    hide Scrambled, Stirred, Xor32, Fmix, ReadLE32, LengthWord32, PartLE32;
    var h1 := seed;
    var data := key;
    for i := 0 to |key| / 4
      invariant |data| == |key| - 4 * i
      invariant BlockMixer.Fold(BlockStep(), h1, Blocks(data)) == BlockMixer.Fold(BlockStep(), seed, Blocks(key))
      invariant Rest(4, data) == Rest(4, key)
    {
      var k1 := ReadLE32(data[..4]);
      assert Blocks(data)[0] == k1 && Blocks(data)[1..] == Blocks(data[4..]);
      h1 := Step(h1, k1);
      data := data[4..];
    }
    if data != [] {
      var k1 := GatherTail32(data);
      h1 := Xor32(h1, Scrambled(k1));
    }
    h1 := Xor32(h1, LengthWord32(|key|));
    out := Fmix(h1);
  }

  /** The state that finishes as the target. */
  function Unfinished(target: bv32, tail: Bytes, len: bv32): bv32
    requires |tail| < 4
  {
    WithTail(Xor32(Unfmix(target), len), tail)
  }

  lemma FinishedUndone(h: bv32, tail: Bytes, len: bv32, target: bv32)
    requires |tail| < 4
    ensures Finished(h, tail, len) == target <==> h == Unfinished(target, tail, len)
  {
    hide Fmix, Unfmix, Xor32, WithTail;
    FmixUndone(Xor32(WithTail(h, tail), len));
    FmixUndone(target);
    XorUndone32(WithTail(h, tail), len);
    XorUndone32(Unfmix(target), len);
    TailUndone(h, tail);
    TailUndone(Xor32(Unfmix(target), len), tail);
  }

  lemma TailUndone(h: bv32, tail: Bytes)
    requires |tail| < 4
    ensures WithTail(WithTail(h, tail), tail) == h
  {
    hide Xor32, Scrambled, PartLE32;
    if tail != [] {
      XorUndone32(h, Scrambled(PartLE32(tail)));
    }
  }

  lemma OneBlock(block: Bytes)
    requires |block| == 4
    ensures Blocks(block) == [ReadLE32(block)]
  {
    hide ReadLE32;
    assert block[..4] == block && Blocks(block[4..]) == [];
  }

  lemma BlocksAround(before: Bytes, block: Bytes, after: Bytes)
    requires |before| % 4 == 0 && |block| == 4
    ensures Blocks(before + block + after) == Blocks(before) + [ReadLE32(block)] + Blocks(after)
    ensures Rest(4, before + block + after) == Rest(4, after)
  {
    hide ReadLE32, Rest;
    BlocksConcat(before, block + after);
    BlocksConcat(block, after);
    assert before + (block + after) == before + block + after;
    OneBlock(block);
  }

  /** The one block that, between these bytes, makes the key hash to the target. */
  function BlockFor(before: Bytes, after: Bytes, seed: bv32, target: bv32): bv32 {
    BlockReaching(BlockStep(), seed, Blocks(before), Blocks(after),
                  Unfinished(target, Rest(4, after), LengthWord32(|before| + 4 + |after|)))
  }

  /** All else fixed, hashing is a bijection of any one whole block: each target is reached, and by one block only. */
  lemma BlockBijection(before: Bytes, block: Bytes, after: Bytes, seed: bv32, target: bv32)
    requires |before| % 4 == 0 && |block| == 4
    ensures Hash(before + block + after, seed) == target <==> block == WriteLE32(BlockFor(before, after, seed, target))
  {
    hide Finished, Unfinished, LengthWord32, ReadLE32, WriteLE32, BlockStep, Blocks, Rest;
    var k, tail, len := ReadLE32(block), Rest(4, after), LengthWord32(|before| + 4 + |after|);
    BlocksAround(before, block, after);
    BlockStepLawful();
    FinishedUndone(BlockMixer.Fold(BlockStep(), seed, Blocks(before + block + after)), tail, len, target);
    OneBlockReaches(BlockStep(), seed, Blocks(before), k, Blocks(after), Unfinished(target, tail, len));
    WriteRead32(block);
    ReadWrite32(BlockFor(before, after, seed, target));
    assert block[..4] == block;
  }

  /** Keys of one length that differ in the tail alone never collide. */
  lemma TailInjective(blocks: Bytes, t: Bytes, u: Bytes, seed: bv32)
    requires |blocks| % 4 == 0 && |t| == |u| < 4
    requires Hash(blocks + t, seed) == Hash(blocks + u, seed)
    ensures t == u
  {
    hide Finished, Unfinished, LengthWord32, BlockStep, PartLE32, WriteLE32, WithTail;
    BlocksConcat(blocks, t);
    BlocksConcat(blocks, u);
    var h, len := BlockMixer.Fold(BlockStep(), seed, Blocks(blocks)), LengthWord32(|blocks + t|);
    assert Blocks(blocks + t) == Blocks(blocks) == Blocks(blocks + u);
    TailShows(h, t, u, len);
    PartBytes32(t);
    PartBytes32(u);
  }

  lemma TailShows(h: bv32, t: Bytes, u: Bytes, len: bv32)
    requires |t| == |u| < 4 && Finished(h, t, len) == Finished(h, u, len)
    ensures t != [] ==> PartLE32(t) == PartLE32(u)
  {
    hide Fmix, Unfmix, Xor32, Scrambled, Unscrambled, PartLE32;
    FmixUndone(Xor32(WithTail(h, t), len));
    FmixUndone(Xor32(WithTail(h, u), len));
    XorUndone32(WithTail(h, t), len);
    XorUndone32(WithTail(h, u), len);
    XorUndone32(Scrambled(PartLE32(t)), h);
    XorUndone32(Scrambled(PartLE32(u)), h);
    ScrambledUndone(PartLE32(t));
    ScrambledUndone(PartLE32(u));
  }
}
