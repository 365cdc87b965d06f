/** MurmurHash3, 128 bits on 64-bit words: two lanes, sixteen-byte blocks. */
module Murmur3x64_128 {
  import opened BlockMixer
  import opened Leftover
  import opened Mixing
  import opened Words

  datatype Pair = Pair(x1: bv64, x2: bv64)

  function Scrambled1(k: bv64): bv64 { Mul64(Rotl64(Mul64(k, 0x87C37B91114253D5), 31), 0x4CF5AD432745937F) }
  function Scrambled2(k: bv64): bv64 { Mul64(Rotl64(Mul64(k, 0x4CF5AD432745937F), 33), 0x87C37B91114253D5) }
  function Unscrambled1(k: bv64): bv64 { Mul64(Rotl64(Mul64(k, 0xA81E14EDD9DE2C7F), 33), 0xA98409E882CE4D7D) }
  function Unscrambled2(k: bv64): bv64 { Mul64(Rotl64(Mul64(k, 0xA98409E882CE4D7D), 31), 0xA81E14EDD9DE2C7F) }

  lemma ScrambledUndone(k: bv64)
    ensures Unscrambled1(Scrambled1(k)) == k && Scrambled1(Unscrambled1(k)) == k
    ensures Unscrambled2(Scrambled2(k)) == k && Scrambled2(Unscrambled2(k)) == k
  {
    hide Mul64, Rotl64;
    Mul64By87c37b91114253d5(k);
    Mul64By4cf5ad432745937f(k);
    Rotl64By31(Mul64(k, 0x87C37B91114253D5));
    Mul64By4cf5ad432745937f(Rotl64(Mul64(k, 0x87C37B91114253D5), 31));
    Rotl64By31(Mul64(k, 0xA81E14EDD9DE2C7F));
    Mul64By87c37b91114253d5(Rotl64(Mul64(k, 0xA81E14EDD9DE2C7F), 33));
    Rotl64By33(Mul64(k, 0x4CF5AD432745937F));
    Mul64By87c37b91114253d5(Rotl64(Mul64(k, 0x4CF5AD432745937F), 33));
    Rotl64By33(Mul64(k, 0xA98409E882CE4D7D));
    Mul64By4cf5ad432745937f(Rotl64(Mul64(k, 0xA98409E882CE4D7D), 31));
  }

  /** What follows the xor with a block word: rotate, add the other lane, times five plus a constant. */
  function Stirred1(h: bv64, other: bv64): bv64 { Add64(Mul64(Add64(Rotl64(h, 27), other), 5), 0x52DCE729) }
  function Stirred2(h: bv64, other: bv64): bv64 { Add64(Mul64(Add64(Rotl64(h, 31), other), 5), 0x38495AB5) }
  function Unstirred1(h: bv64, other: bv64): bv64 { Rotl64(Sub64(Mul64(Sub64(h, 0x52DCE729), 0xCCCCCCCCCCCCCCCD), other), 37) }
  function Unstirred2(h: bv64, other: bv64): bv64 { Rotl64(Sub64(Mul64(Sub64(h, 0x38495AB5), 0xCCCCCCCCCCCCCCCD), other), 33) }

  lemma StirredUndone1(h: bv64, o: bv64)
    ensures Unstirred1(Stirred1(h, o), o) == h && Stirred1(Unstirred1(h, o), o) == h
  {
    hide Mul64, Rotl64, Add64, Sub64;
    Rotl64By27(h);
    AddUndone64(Rotl64(h, 27), o);
    Mul64By5(Add64(Rotl64(h, 27), o));
    AddUndone64(Mul64(Add64(Rotl64(h, 27), o), 5), 0x52DCE729);
    AddUndone64(h, 0x52DCE729);
    Mul64By5(Sub64(h, 0x52DCE729));
    AddUndone64(Mul64(Sub64(h, 0x52DCE729), 0xCCCCCCCCCCCCCCCD), o);
    Rotl64By27(Sub64(Mul64(Sub64(h, 0x52DCE729), 0xCCCCCCCCCCCCCCCD), o));
  }

  lemma StirredUndone2(h: bv64, o: bv64)
    ensures Unstirred2(Stirred2(h, o), o) == h && Stirred2(Unstirred2(h, o), o) == h
  {
    hide Mul64, Rotl64, Add64, Sub64;
    Rotl64By31(h);
    AddUndone64(Rotl64(h, 31), o);
    Mul64By5(Add64(Rotl64(h, 31), o));
    AddUndone64(Mul64(Add64(Rotl64(h, 31), o), 5), 0x38495AB5);
    AddUndone64(h, 0x38495AB5);
    Mul64By5(Sub64(h, 0x38495AB5));
    AddUndone64(Mul64(Sub64(h, 0x38495AB5), 0xCCCCCCCCCCCCCCCD), o);
    Rotl64By31(Sub64(Mul64(Sub64(h, 0x38495AB5), 0xCCCCCCCCCCCCCCCD), o));
  }

  function Step(h: Pair, k: Pair): Pair {
    var h1 := Stirred1(Xor64(h.x1, Scrambled1(k.x1)), h.x2);
    var h2 := Stirred2(Xor64(h.x2, Scrambled2(k.x2)), h1);
    Pair(h1, h2)
  }

  function Unstep(h: Pair, k: Pair): Pair {
    var h2 := Xor64(Unstirred2(h.x2, h.x1), Scrambled2(k.x2));
    Pair(Xor64(Unstirred1(h.x1, h2), Scrambled1(k.x1)), h2)
  }

  function Solve(h: Pair, t: Pair): Pair {
    Pair(Unscrambled1(Xor64(Unstirred1(t.x1, h.x2), h.x1)), Unscrambled2(Xor64(Unstirred2(t.x2, t.x1), h.x2)))
  }

  function BlockStep(): Mixer<Pair, Pair> {
    Mixer((h: Pair, k: Pair) => Step(h, k), (h: Pair, k: Pair) => Unstep(h, k), (h: Pair, t: Pair) => Solve(h, t))
  }

  lemma BlockStepLawful()
    ensures Lawful(BlockStep())
  {
    hide Step, Unstep, Solve;
    var m := BlockStep();
    forall h: Pair, k: Pair
      ensures m.unstep(m.step(h, k), k) == h && m.step(m.unstep(h, k), k) == h
      ensures m.solve(h, m.step(h, k)) == k && m.step(h, m.solve(h, k)) == k
    {
      StepUndone(h, k);
      StepSolved(h, k);
    }
  }

  lemma StepUndone(h: Pair, k: Pair)
    ensures Unstep(Step(h, k), k) == h && Step(Unstep(h, k), k) == h
  {
    hide Stirred1, Stirred2, Unstirred1, Unstirred2, Scrambled1, Scrambled2, Xor64;
    var t, u := Step(h, k), Unstep(h, k);
    StirredUndone2(Xor64(h.x2, Scrambled2(k.x2)), t.x1);
    XorUndone64(h.x2, Scrambled2(k.x2));
    StirredUndone1(Xor64(h.x1, Scrambled1(k.x1)), h.x2);
    XorUndone64(h.x1, Scrambled1(k.x1));
    XorUndone64(Unstirred1(h.x1, u.x2), Scrambled1(k.x1));
    StirredUndone1(h.x1, u.x2);
    XorUndone64(Unstirred2(h.x2, h.x1), Scrambled2(k.x2));
    StirredUndone2(h.x2, h.x1);
  }

  lemma StepSolved(h: Pair, k: Pair)
    ensures Solve(h, Step(h, k)) == k && Step(h, Solve(h, k)) == k
  {
    hide Stirred1, Stirred2, Unstirred1, Unstirred2, Scrambled1, Scrambled2, Unscrambled1, Unscrambled2, Xor64;
    var t := Step(h, k);
    StirredUndone1(Xor64(h.x1, Scrambled1(k.x1)), h.x2);
    XorUndone64(Scrambled1(k.x1), h.x1);
    ScrambledUndone(k.x1);
    StirredUndone2(Xor64(h.x2, Scrambled2(k.x2)), t.x1);
    XorUndone64(Scrambled2(k.x2), h.x2);
    ScrambledUndone(k.x2);
    var a, b := Xor64(Unstirred1(k.x1, h.x2), h.x1), Xor64(Unstirred2(k.x2, k.x1), h.x2);
    ScrambledUndone(a);
    ScrambledUndone(b);
    XorUndone64(Unstirred1(k.x1, h.x2), h.x1);
    XorUndone64(h.x1, a);
    XorUndone64(Unstirred2(k.x2, k.x1), h.x2);
    XorUndone64(h.x2, b);
    StirredUndone1(k.x1, h.x2);
    StirredUndone2(k.x2, k.x1);
  }

  function ReadBlock(block: Bytes): Pair
    requires |block| >= 16
  {
    Pair(ReadLE64(block[0..8]), ReadLE64(block[8..16]))
  }

  function WriteBlock(k: Pair): Bytes {
    WriteLE64(k.x1) + WriteLE64(k.x2)
  }

  lemma BlockReadWrite(block: Bytes, k: Pair)
    requires |block| == 16
    ensures WriteBlock(ReadBlock(block)) == block && |WriteBlock(k)| == 16 && ReadBlock(WriteBlock(k)) == k
  {
    hide ReadLE64, WriteLE64;
    WriteRead64(block[0..8]);
    WriteRead64(block[8..16]);
    assert block[0..8][..8] == block[0..8] && block[8..16][..8] == block[8..16];
    assert block == block[0..8] + block[8..16];
    var w := WriteBlock(k);
    assert w[0..8] == WriteLE64(k.x1) && w[8..16] == WriteLE64(k.x2);
    ReadWrite64(k.x1);
    ReadWrite64(k.x2);
  }

  function Blocks(data: Bytes): seq<Pair> {
    if |data| < 16 then [] else [ReadBlock(data[..16])] + Blocks(data[16..])
  }

  lemma {:induction false} BlocksConcat(a: Bytes, b: Bytes)
    requires |a| % 16 == 0
    ensures Blocks(a + b) == Blocks(a) + Blocks(b) && Rest(16, a + b) == Rest(16, b)
  {
    hide ReadBlock;
    if |a| == 0 {
      assert a + b == b;
    } else {
      assert (a + b)[..16] == a[..16] && (a + b)[16..] == a[16..] + b;
      BlocksConcat(a[16..], b);
    }
  }

  lemma OneBlock(block: Bytes)
    requires |block| == 16
    ensures Blocks(block) == [ReadBlock(block)]
  {
    hide ReadBlock;
    assert block[..16] == block && Blocks(block[16..]) == [];
  }

  lemma BlocksAround(before: Bytes, block: Bytes, after: Bytes)
    requires |before| % 16 == 0 && |block| == 16
    ensures Blocks(before + block + after) == Blocks(before) + [ReadBlock(block)] + Blocks(after)
    ensures Rest(16, before + block + after) == Rest(16, after)
  {
    hide ReadBlock, Rest;
    BlocksConcat(before, block + after);
    BlocksConcat(block, after);
    assert before + (block + after) == before + block + after;
    OneBlock(block);
  }

  /** The tail's second word is mixed in if it has a byte, then its first. */
  function WithTail(h: Pair, tail: Bytes): Pair
    requires |tail| < 16
  {
    if |tail| > 8 then
      Pair(Xor64(h.x1, Scrambled1(PartLE64(tail[..8]))), Xor64(h.x2, Scrambled2(PartLE64(tail[8..]))))
    else if |tail| > 0 then Pair(Xor64(h.x1, Scrambled1(PartLE64(tail))), h.x2)
    else h
  }

  lemma TailUndone(h: Pair, tail: Bytes)
    requires |tail| < 16
    ensures WithTail(WithTail(h, tail), tail) == h
  {
    hide Xor64, Scrambled1, Scrambled2, PartLE64;
    if |tail| > 8 {
      XorUndone64(h.x1, Scrambled1(PartLE64(tail[..8])));
      XorUndone64(h.x2, Scrambled2(PartLE64(tail[8..])));
    } else if |tail| > 0 {
      XorUndone64(h.x1, Scrambled1(PartLE64(tail)));
    }
  }

  lemma TailShows(h: Pair, t: Bytes, u: Bytes)
    requires |t| == |u| < 16 && WithTail(h, t) == WithTail(h, u)
    ensures t == u
  {
    hide Xor64, Scrambled1, Scrambled2, Unscrambled1, Unscrambled2, PartLE64;
    if |t| > 8 {
      WordShows(h, t[..8], u[..8]);
      WordShows(h, t[8..], u[8..]);
      assert t == t[..8] + t[8..] && u == u[..8] + u[8..];
    } else if |t| > 0 {
      WordShows(h, t, u);
    }
  }

  lemma WordShows(h: Pair, t: Bytes, u: Bytes)
    requires |t| == |u| <= 8
    ensures Xor64(h.x1, Scrambled1(PartLE64(t))) == Xor64(h.x1, Scrambled1(PartLE64(u))) ==> t == u
    ensures Xor64(h.x2, Scrambled2(PartLE64(t))) == Xor64(h.x2, Scrambled2(PartLE64(u))) ==> t == u
  {
    hide Xor64, Scrambled1, Scrambled2, Unscrambled1, Unscrambled2, PartLE64, WriteLE64;
    var a, b := PartLE64(t), PartLE64(u);
    ScrambledUndone(a);
    ScrambledUndone(b);
    XorUndone64(Scrambled1(a), h.x1);
    XorUndone64(Scrambled1(b), h.x1);
    XorUndone64(Scrambled2(a), h.x2);
    XorUndone64(Scrambled2(b), h.x2);
    PartBytes64(t);
    PartBytes64(u);
  }

  /** The final avalanche of a lane. */
  function Fmix(k: bv64): bv64 {
    XorShr64(Mul64(XorShr64(Mul64(XorShr64(k, 33), 0xFF51AFD7ED558CCD), 33), 0xC4CEB9FE1A85EC53), 33)
  }

  function Unfmix(k: bv64): bv64 {
    UnXorShr64(Mul64(UnXorShr64(Mul64(UnXorShr64(k, 33), 0x9CB4B2F8129337DB), 33), 0x4F74430C22A54005), 33)
  }

  lemma FmixUndone(k: bv64)
    ensures Unfmix(Fmix(k)) == k && Fmix(Unfmix(k)) == k
  {
    hide XorShr64, UnXorShr64, Mul64;
    var a := XorShr64(k, 33);
    var b := XorShr64(Mul64(a, 0xFF51AFD7ED558CCD), 33);
    XorShr64By33(k);
    Mul64Byff51afd7ed558ccd(a);
    XorShr64By33(Mul64(a, 0xFF51AFD7ED558CCD));
    Mul64Byc4ceb9fe1a85ec53(b);
    XorShr64By33(Mul64(b, 0xC4CEB9FE1A85EC53));
    var c := UnXorShr64(k, 33);
    var d := UnXorShr64(Mul64(c, 0x9CB4B2F8129337DB), 33);
    Mul64Byc4ceb9fe1a85ec53(c);
    XorShr64By33(Mul64(c, 0x9CB4B2F8129337DB));
    Mul64Byff51afd7ed558ccd(d);
    XorShr64By33(Mul64(d, 0x4F74430C22A54005));
  }

  /** h1 += h2; h2 += h1 */
  function Summed(h: Pair): Pair {
    var h1 := Add64(h.x1, h.x2);
    Pair(h1, Add64(h.x2, h1))
  }

  function Unsummed(h: Pair): Pair {
    var h2 := Sub64(h.x2, h.x1);
    Pair(Sub64(h.x1, h2), h2)
  }

  lemma SummedUndone(h: Pair)
    ensures Unsummed(Summed(h)) == h && Summed(Unsummed(h)) == h
  {
    hide Add64, Sub64;
    AddUndone64(h.x1, h.x2);
    AddUndone64(h.x2, Add64(h.x1, h.x2));
    AddUndone64(h.x2, h.x1);
    AddUndone64(h.x1, Sub64(h.x2, h.x1));
  }

  function WithLength(h: Pair, len: bv64): Pair { Pair(Xor64(h.x1, len), Xor64(h.x2, len)) }

  function Avalanched(h: Pair): Pair { Pair(Fmix(h.x1), Fmix(h.x2)) }
  function Unavalanched(h: Pair): Pair { Pair(Unfmix(h.x1), Unfmix(h.x2)) }

  function Finished(h: Pair, tail: Bytes, len: bv64): Pair
    requires |tail| < 16
  {
    Summed(Avalanched(Summed(WithLength(WithTail(h, tail), len))))
  }

  /** The state that finishes as the target. */
  function Unfinished(target: Pair, tail: Bytes, len: bv64): Pair
    requires |tail| < 16
  {
    WithTail(WithLength(Unsummed(Unavalanched(Unsummed(target))), len), tail)
  }

  lemma FinishedUndone(h: Pair, tail: Bytes, len: bv64, target: Pair)
    requires |tail| < 16
    ensures Finished(h, tail, len) == target <==> h == Unfinished(target, tail, len)
  {
    hide WithLength, WithTail, Avalanched, Unavalanched, Summed, Unsummed;
    var a := WithLength(WithTail(h, tail), len);
    SummedUndone(Avalanched(Summed(a)));
    AvalanchedUndone(Summed(a));
    SummedUndone(a);
    LengthUndone(WithTail(h, tail), len);
    TailUndone(h, tail);
    var c := Unavalanched(Unsummed(target));
    SummedUndone(target);
    AvalanchedUndone(Unsummed(target));
    SummedUndone(c);
    LengthUndone(Unsummed(c), len);
    TailUndone(WithLength(Unsummed(c), len), tail);
  }

  lemma AvalanchedUndone(h: Pair)
    ensures Unavalanched(Avalanched(h)) == h && Avalanched(Unavalanched(h)) == h
  {
    hide Fmix, Unfmix;
    FmixUndone(h.x1);
    FmixUndone(h.x2);
  }

  lemma LengthUndone(h: Pair, len: bv64)
    ensures WithLength(WithLength(h, len), len) == h
  {
    hide Xor64;
    XorUndone64(h.x1, len);
    XorUndone64(h.x2, len);
  }

  /** The hash as a function of the key. */
  function Hash(key: Bytes, seed: bv32): Pair {
    var start := Pair(seed as bv64, seed as bv64);
    Finished(BlockMixer.Fold(BlockStep(), start, Blocks(key)), Rest(16, key), LengthWord64(|key|))
  }

  /** The hash as it runs: blocks, the fall-through switch over the tail, the finalisation. */
  method Murmur3(key: Bytes, seed: bv32) returns (out1: bv64, out2: bv64)
    ensures Pair(out1, out2) == Hash(key, seed)
  {
    hide Scrambled1, Scrambled2, Stirred1, Stirred2, Xor64, Add64, Fmix, ReadBlock, LengthWord64, WithTail;
    var h1, h2: bv64 := seed as bv64, seed as bv64;
    ghost var start := Pair(h1, h2);
    var data := key;
    for i := 0 to |key| / 16
      invariant |data| == |key| - 16 * i
      invariant BlockMixer.Fold(BlockStep(), Pair(h1, h2), Blocks(data)) == BlockMixer.Fold(BlockStep(), start, Blocks(key))
      invariant Rest(16, data) == Rest(16, key)
    {
      var k := ReadBlock(data[..16]);
      assert Blocks(data)[0] == k && Blocks(data)[1..] == Blocks(data[16..]);
      h1 := Stirred1(Xor64(h1, Scrambled1(k.x1)), h2);
      h2 := Stirred2(Xor64(h2, Scrambled2(k.x2)), h1);
      data := data[16..];
    }
    h1, h2 := SwitchTail(h1, h2, data);
    h1, h2 := Xor64(h1, LengthWord64(|key|)), Xor64(h2, LengthWord64(|key|));
    h1 := Add64(h1, h2);
    h2 := Add64(h2, h1);
    h1, h2 := Fmix(h1), Fmix(h2);
    h1 := Add64(h1, h2);
    h2 := Add64(h2, h1);
    return h1, h2;
  }

  /** Rows 15 to 9 gather the second word and mix it in, then rows 8 to 1 the first. */
  method SwitchTail(a1: bv64, a2: bv64, tail: Bytes) returns (h1: bv64, h2: bv64)
    requires |tail| < 16
    ensures Pair(h1, h2) == WithTail(Pair(a1, a2), tail)
  {
    hide Scrambled1, Scrambled2, Xor64, PartLE64;
    h1, h2 := a1, a2;
    if |tail| > 8 {
      var k2 := GatherTail64(tail[8..]);
      h2 := Xor64(h2, Scrambled2(k2));
    }
    if |tail| > 0 {
      var k1 := GatherTail64(tail[..if |tail| > 8 then 8 else |tail|]);
      h1 := Xor64(h1, Scrambled1(k1));
    }
    assert |tail| <= 8 ==> tail[..|tail|] == tail;
  }

  /** The one block that, between these bytes, makes the key hash to the target. */
  function BlockFor(before: Bytes, after: Bytes, seed: bv32, target: Pair): Pair {
    BlockReaching(BlockStep(), Pair(seed as bv64, seed as bv64), Blocks(before), Blocks(after),
                  Unfinished(target, Rest(16, after), LengthWord64(|before| + 16 + |after|)))
  }

  /** All else fixed, hashing is a bijection of any one whole block: each target is reached, and by one block only. */
  lemma BlockBijection(before: Bytes, block: Bytes, after: Bytes, seed: bv32, target: Pair)
    requires |before| % 16 == 0 && |block| == 16
    ensures Hash(before + block + after, seed) == target <==> block == WriteBlock(BlockFor(before, after, seed, target))
  {
    hide Finished, Unfinished, LengthWord64, ReadBlock, WriteBlock, BlockStep, Blocks, Rest;
    var start := Pair(seed as bv64, seed as bv64);
    var k, tail, len := ReadBlock(block), Rest(16, after), LengthWord64(|before| + 16 + |after|);
    BlocksAround(before, block, after);
    BlockStepLawful();
    FinishedUndone(BlockMixer.Fold(BlockStep(), start, Blocks(before + block + after)), tail, len, target);
    OneBlockReaches(BlockStep(), start, Blocks(before), k, Blocks(after), Unfinished(target, tail, len));
    BlockReadWrite(block, BlockFor(before, after, seed, target));
  }

  /** Keys of one length that differ in the tail alone never collide. */
  lemma TailInjective(blocks: Bytes, t: Bytes, u: Bytes, seed: bv32)
    requires |blocks| % 16 == 0 && |t| == |u| < 16
    requires Hash(blocks + t, seed) == Hash(blocks + u, seed)
    ensures t == u
  {
    hide Finished, Unfinished, LengthWord64, BlockStep, WithTail;
    BlocksConcat(blocks, t);
    BlocksConcat(blocks, u);
    var start := Pair(seed as bv64, seed as bv64);
    var h, len := BlockMixer.Fold(BlockStep(), start, Blocks(blocks)), LengthWord64(|blocks + t|);
    assert Blocks(blocks + t) == Blocks(blocks) == Blocks(blocks + u);
    FinishedShows(h, t, u, len);
    TailShows(h, t, u);
  }

  lemma FinishedShows(h: Pair, t: Bytes, u: Bytes, len: bv64)
    requires |t| == |u| < 16 && Finished(h, t, len) == Finished(h, u, len)
    ensures WithTail(h, t) == WithTail(h, u)
  {
    hide WithLength, WithTail, Avalanched, Unavalanched, Summed, Unsummed;
    var a, b := WithLength(WithTail(h, t), len), WithLength(WithTail(h, u), len);
    SummedUndone(Avalanched(Summed(a)));
    SummedUndone(Avalanched(Summed(b)));
    AvalanchedUndone(Summed(a));
    AvalanchedUndone(Summed(b));
    SummedUndone(a);
    SummedUndone(b);
    LengthUndone(WithTail(h, t), len);
    LengthUndone(WithTail(h, u), len);
  }
}
