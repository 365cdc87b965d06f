/** MurmurHash3, 128 bits on 32-bit words: four lanes, sixteen-byte blocks. */
module Murmur3x86_128 {
  import opened BlockMixer
  import opened Leftover
  import opened Mixing
  import opened Words
  import Murmur3x86_32

  datatype Quad = Quad(x1: bv32, x2: bv32, x3: bv32, x4: bv32)

  function Scrambled1(k: bv32): bv32 { Mul32(Rotl32(Mul32(k, 0x239B961B), 15), 0xAB0E9789) }
  function Scrambled2(k: bv32): bv32 { Mul32(Rotl32(Mul32(k, 0xAB0E9789), 16), 0x38B34AE5) }
  function Scrambled3(k: bv32): bv32 { Mul32(Rotl32(Mul32(k, 0x38B34AE5), 17), 0xA1E38B93) }
  function Scrambled4(k: bv32): bv32 { Mul32(Rotl32(Mul32(k, 0xA1E38B93), 18), 0x239B961B) }
  function Unscrambled1(k: bv32): bv32 { Mul32(Rotl32(Mul32(k, 0xDF130EB9), 17), 0x89C95413) }
  function Unscrambled2(k: bv32): bv32 { Mul32(Rotl32(Mul32(k, 0x747862ED), 16), 0xDF130EB9) }
  function Unscrambled3(k: bv32): bv32 { Mul32(Rotl32(Mul32(k, 0x58D64A9B), 15), 0x747862ED) }
  function Unscrambled4(k: bv32): bv32 { Mul32(Rotl32(Mul32(k, 0x89C95413), 14), 0x58D64A9B) }

  lemma ScrambledUndone1(k: bv32)
    ensures Unscrambled1(Scrambled1(k)) == k && Scrambled1(Unscrambled1(k)) == k
  {
    hide Mul32, Rotl32;
    Mul32By239b961b(k);
    Rotl32By15(Mul32(k, 0x239B961B));
    Mul32Byab0e9789(Rotl32(Mul32(k, 0x239B961B), 15));
    Mul32Byab0e9789(k);
    Rotl32By15(Mul32(k, 0xDF130EB9));
    Mul32By239b961b(Rotl32(Mul32(k, 0xDF130EB9), 17));
  }

  lemma ScrambledUndone2(k: bv32)
    ensures Unscrambled2(Scrambled2(k)) == k && Scrambled2(Unscrambled2(k)) == k
  {
    hide Mul32, Rotl32;
    Mul32Byab0e9789(k);
    Rotl32By16(Mul32(k, 0xAB0E9789));
    Mul32By38b34ae5(Rotl32(Mul32(k, 0xAB0E9789), 16));
    Mul32By38b34ae5(k);
    Rotl32By16(Mul32(k, 0x747862ED));
    Mul32Byab0e9789(Rotl32(Mul32(k, 0x747862ED), 16));
  }

  lemma ScrambledUndone3(k: bv32)
    ensures Unscrambled3(Scrambled3(k)) == k && Scrambled3(Unscrambled3(k)) == k
  {
    hide Mul32, Rotl32;
    Mul32By38b34ae5(k);
    Rotl32By17(Mul32(k, 0x38B34AE5));
    Mul32Bya1e38b93(Rotl32(Mul32(k, 0x38B34AE5), 17));
    Mul32Bya1e38b93(k);
    Rotl32By17(Mul32(k, 0x58D64A9B));
    Mul32By38b34ae5(Rotl32(Mul32(k, 0x58D64A9B), 15));
  }

  lemma ScrambledUndone4(k: bv32)
    ensures Unscrambled4(Scrambled4(k)) == k && Scrambled4(Unscrambled4(k)) == k
  {
    hide Mul32, Rotl32;
    Mul32Bya1e38b93(k);
    Rotl32By18(Mul32(k, 0xA1E38B93));
    Mul32By239b961b(Rotl32(Mul32(k, 0xA1E38B93), 18));
    Mul32By239b961b(k);
    Rotl32By18(Mul32(k, 0x89C95413));
    Mul32Bya1e38b93(Rotl32(Mul32(k, 0x89C95413), 14));
  }

  /** What follows the xor with a block word: rotate, add another lane, times five plus a constant. */
  function Stirred(h: bv32, other: bv32, r: bv6, c: bv32): bv32
    requires 0 < r < 32
  {
    Add32(Mul32(Add32(Rotl32(h, r), other), 5), c)
  }

  function Unstirred(h: bv32, other: bv32, r: bv6, c: bv32): bv32
    requires 0 < r < 32
  {
    Rotl32(Sub32(Mul32(Sub32(h, c), 0xCCCCCCCD), other), 32 - r)
  }

  lemma StirredUndone(h: bv32, o: bv32, r: bv6, c: bv32)
    requires r == 13 || r == 15 || r == 17 || r == 19
    ensures Unstirred(Stirred(h, o, r, c), o, r, c) == h && Stirred(Unstirred(h, o, r, c), o, r, c) == h
  {
    hide Mul32, Rotl32, Add32, Sub32;
    RotationUndone(h, r);
    AddUndone32(Rotl32(h, r), o);
    Mul32By5(Add32(Rotl32(h, r), o));
    AddUndone32(Mul32(Add32(Rotl32(h, r), o), 5), c);
    AddUndone32(h, c);
    Mul32By5(Sub32(h, c));
    AddUndone32(Mul32(Sub32(h, c), 0xCCCCCCCD), o);
    RotationUndone(Sub32(Mul32(Sub32(h, c), 0xCCCCCCCD), o), r);
  }

  lemma RotationUndone(x: bv32, r: bv6)
    requires r == 13 || r == 15 || r == 17 || r == 19
    ensures Rotl32(Rotl32(x, r), 32 - r) == x && Rotl32(Rotl32(x, 32 - r), r) == x
  {
    hide Rotl32;
    Rotl32By13(x);
    Rotl32By15(x);
    Rotl32By17(x);
    Rotl32By19(x);
  }

  function Step(h: Quad, k: Quad): Quad {
    var h1 := Stirred(Xor32(h.x1, Scrambled1(k.x1)), h.x2, 19, 0x561CCD1B);
    var h2 := Stirred(Xor32(h.x2, Scrambled2(k.x2)), h.x3, 17, 0x0BCAA747);
    var h3 := Stirred(Xor32(h.x3, Scrambled3(k.x3)), h.x4, 15, 0x96CD1C35);
    var h4 := Stirred(Xor32(h.x4, Scrambled4(k.x4)), h1, 13, 0x32AC3B17);
    Quad(h1, h2, h3, h4)
  }

  function Unstep(h: Quad, k: Quad): Quad {
    var h4 := Xor32(Unstirred(h.x4, h.x1, 13, 0x32AC3B17), Scrambled4(k.x4));
    var h3 := Xor32(Unstirred(h.x3, h4, 15, 0x96CD1C35), Scrambled3(k.x3));
    var h2 := Xor32(Unstirred(h.x2, h3, 17, 0x0BCAA747), Scrambled2(k.x2));
    var h1 := Xor32(Unstirred(h.x1, h2, 19, 0x561CCD1B), Scrambled1(k.x1));
    Quad(h1, h2, h3, h4)
  }

  function Solve(h: Quad, t: Quad): Quad {
    Quad(Unscrambled1(Xor32(Unstirred(t.x1, h.x2, 19, 0x561CCD1B), h.x1)),
         Unscrambled2(Xor32(Unstirred(t.x2, h.x3, 17, 0x0BCAA747), h.x2)),
         Unscrambled3(Xor32(Unstirred(t.x3, h.x4, 15, 0x96CD1C35), h.x3)),
         Unscrambled4(Xor32(Unstirred(t.x4, t.x1, 13, 0x32AC3B17), h.x4)))
  }

  function BlockStep(): Mixer<Quad, Quad> {
    Mixer((h: Quad, k: Quad) => Step(h, k), (h: Quad, k: Quad) => Unstep(h, k), (h: Quad, t: Quad) => Solve(h, t))
  }

  lemma BlockStepLawful()
    ensures Lawful(BlockStep())
  {
    hide Step, Unstep, Solve;
    var m := BlockStep();
    forall h: Quad, k: Quad
      ensures m.unstep(m.step(h, k), k) == h && m.step(m.unstep(h, k), k) == h
      ensures m.solve(h, m.step(h, k)) == k && m.step(h, m.solve(h, k)) == k
    {
      StepUndone(h, k);
      UnstepUndone(h, k);
      StepSolved(h, k);
      SolvedStep(h, k);
    }
  }

  lemma StepUndone(h: Quad, k: Quad)
    ensures Unstep(Step(h, k), k) == h
  {
    hide Stirred, Unstirred, Xor32, Scrambled1, Scrambled2, Scrambled3, Scrambled4;
    var t := Step(h, k);
    StirredUndone(Xor32(h.x4, Scrambled4(k.x4)), t.x1, 13, 0x32AC3B17);
    XorUndone32(h.x4, Scrambled4(k.x4));
    StirredUndone(Xor32(h.x3, Scrambled3(k.x3)), h.x4, 15, 0x96CD1C35);
    XorUndone32(h.x3, Scrambled3(k.x3));
    StirredUndone(Xor32(h.x2, Scrambled2(k.x2)), h.x3, 17, 0x0BCAA747);
    XorUndone32(h.x2, Scrambled2(k.x2));
    StirredUndone(Xor32(h.x1, Scrambled1(k.x1)), h.x2, 19, 0x561CCD1B);
    XorUndone32(h.x1, Scrambled1(k.x1));
  }

  lemma UnstepUndone(h: Quad, k: Quad)
    ensures Step(Unstep(h, k), k) == h
  {
    hide Stirred, Unstirred, Xor32, Scrambled1, Scrambled2, Scrambled3, Scrambled4;
    var u := Unstep(h, k);
    XorUndone32(Unstirred(h.x1, u.x2, 19, 0x561CCD1B), Scrambled1(k.x1));
    StirredUndone(h.x1, u.x2, 19, 0x561CCD1B);
    XorUndone32(Unstirred(h.x2, u.x3, 17, 0x0BCAA747), Scrambled2(k.x2));
    StirredUndone(h.x2, u.x3, 17, 0x0BCAA747);
    XorUndone32(Unstirred(h.x3, u.x4, 15, 0x96CD1C35), Scrambled3(k.x3));
    StirredUndone(h.x3, u.x4, 15, 0x96CD1C35);
    XorUndone32(Unstirred(h.x4, h.x1, 13, 0x32AC3B17), Scrambled4(k.x4));
    StirredUndone(h.x4, h.x1, 13, 0x32AC3B17);
  }

  lemma StepSolved(h: Quad, k: Quad)
    ensures Solve(h, Step(h, k)) == k
  {
    hide Stirred, Unstirred, Xor32, Scrambled1, Scrambled2, Scrambled3, Scrambled4, Unscrambled1, Unscrambled2, Unscrambled3, Unscrambled4;
    var t := Step(h, k);
    StirredUndone(Xor32(h.x1, Scrambled1(k.x1)), h.x2, 19, 0x561CCD1B);
    XorUndone32(Scrambled1(k.x1), h.x1);
    ScrambledUndone1(k.x1);
    StirredUndone(Xor32(h.x2, Scrambled2(k.x2)), h.x3, 17, 0x0BCAA747);
    XorUndone32(Scrambled2(k.x2), h.x2);
    ScrambledUndone2(k.x2);
    StirredUndone(Xor32(h.x3, Scrambled3(k.x3)), h.x4, 15, 0x96CD1C35);
    XorUndone32(Scrambled3(k.x3), h.x3);
    ScrambledUndone3(k.x3);
    StirredUndone(Xor32(h.x4, Scrambled4(k.x4)), t.x1, 13, 0x32AC3B17);
    XorUndone32(Scrambled4(k.x4), h.x4);
    ScrambledUndone4(k.x4);
  }

  lemma SolvedStep(h: Quad, t: Quad)
    ensures Step(h, Solve(h, t)) == t
  {
    hide Stirred, Unstirred, Xor32, Scrambled1, Scrambled2, Scrambled3, Scrambled4, Unscrambled1, Unscrambled2, Unscrambled3, Unscrambled4;
    ScrambledUndone1(Xor32(Unstirred(t.x1, h.x2, 19, 0x561CCD1B), h.x1));
    XorUndone32(Unstirred(t.x1, h.x2, 19, 0x561CCD1B), h.x1);
    XorUndone32(h.x1, Xor32(Unstirred(t.x1, h.x2, 19, 0x561CCD1B), h.x1));
    StirredUndone(t.x1, h.x2, 19, 0x561CCD1B);
    ScrambledUndone2(Xor32(Unstirred(t.x2, h.x3, 17, 0x0BCAA747), h.x2));
    XorUndone32(Unstirred(t.x2, h.x3, 17, 0x0BCAA747), h.x2);
    XorUndone32(h.x2, Xor32(Unstirred(t.x2, h.x3, 17, 0x0BCAA747), h.x2));
    StirredUndone(t.x2, h.x3, 17, 0x0BCAA747);
    ScrambledUndone3(Xor32(Unstirred(t.x3, h.x4, 15, 0x96CD1C35), h.x3));
    XorUndone32(Unstirred(t.x3, h.x4, 15, 0x96CD1C35), h.x3);
    XorUndone32(h.x3, Xor32(Unstirred(t.x3, h.x4, 15, 0x96CD1C35), h.x3));
    StirredUndone(t.x3, h.x4, 15, 0x96CD1C35);
    ScrambledUndone4(Xor32(Unstirred(t.x4, t.x1, 13, 0x32AC3B17), h.x4));
    XorUndone32(Unstirred(t.x4, t.x1, 13, 0x32AC3B17), h.x4);
    XorUndone32(h.x4, Xor32(Unstirred(t.x4, t.x1, 13, 0x32AC3B17), h.x4));
    StirredUndone(t.x4, t.x1, 13, 0x32AC3B17);
  }

  function ReadBlock(block: Bytes): Quad
    requires |block| >= 16
  {
    Quad(ReadLE32(block[0..4]), ReadLE32(block[4..8]), ReadLE32(block[8..12]), ReadLE32(block[12..16]))
  }

  function WriteBlock(k: Quad): Bytes {
    WriteLE32(k.x1) + WriteLE32(k.x2) + WriteLE32(k.x3) + WriteLE32(k.x4)
  }

  lemma FourParts(a: Bytes, b: Bytes, c: Bytes, d: Bytes)
    requires |a| == |b| == |c| == |d| == 4
    ensures var w := a + b + c + d; |w| == 16 && w[0..4] == a && w[4..8] == b && w[8..12] == c && w[12..16] == d
  {
  }

  lemma BlockWriteRead(block: Bytes)
    requires |block| == 16
    ensures WriteBlock(ReadBlock(block)) == block
  {
    hide ReadLE32, WriteLE32;
    WordReadWrite(block[0..4], 0);
    WordReadWrite(block[4..8], 0);
    WordReadWrite(block[8..12], 0);
    WordReadWrite(block[12..16], 0);
    assert block == block[0..4] + block[4..8] + block[8..12] + block[12..16];
  }

  lemma BlockReadWrite(block: Bytes, k: Quad)
    requires |block| == 16
    ensures WriteBlock(ReadBlock(block)) == block && |WriteBlock(k)| == 16 && ReadBlock(WriteBlock(k)) == k
  {
    hide ReadLE32, WriteLE32;
    BlockWriteRead(block);
    WordReadWrite(block[0..4], k.x1);
    WordReadWrite(block[0..4], k.x2);
    WordReadWrite(block[0..4], k.x3);
    WordReadWrite(block[0..4], k.x4);
    FourParts(WriteLE32(k.x1), WriteLE32(k.x2), WriteLE32(k.x3), WriteLE32(k.x4));
  }

  lemma WordReadWrite(s: Bytes, v: bv32)
    requires |s| == 4
    ensures WriteLE32(ReadLE32(s)) == s && ReadLE32(WriteLE32(v)) == v
  {
    hide ReadLE32, WriteLE32;
    WriteRead32(s);
    ReadWrite32(v);
    assert s[..4] == s;
  }

  function Blocks(data: Bytes): seq<Quad> {
    if |data| < 16 then [] else [ReadBlock(data[..16])] + Blocks(data[16..])
  }

  lemma {:induction false} BlocksConcat(a: Bytes, b: Bytes)
    requires |a| % 16 == 0
    ensures Blocks(a + b) == Blocks(a) + Blocks(b) && Rest(16, a + b) == Rest(16, b)
  {
    hide ReadBlock;
    if |a| == 0 {
      assert a + b == b;
    } else {
      assert (a + b)[..16] == a[..16] && (a + b)[16..] == a[16..] + b;
      BlocksConcat(a[16..], b);
    }
  }

  lemma OneBlock(block: Bytes)
    requires |block| == 16
    ensures Blocks(block) == [ReadBlock(block)]
  {
    hide ReadBlock;
    assert block[..16] == block && Blocks(block[16..]) == [];
  }

  lemma BlocksAround(before: Bytes, block: Bytes, after: Bytes)
    requires |before| % 16 == 0 && |block| == 16
    ensures Blocks(before + block + after) == Blocks(before) + [ReadBlock(block)] + Blocks(after)
    ensures Rest(16, before + block + after) == Rest(16, after)
  {
    hide ReadBlock, Rest;
    BlocksConcat(before, block + after);
    BlocksConcat(block, after);
    assert before + (block + after) == before + block + after;
    OneBlock(block);
  }

  /** The tail's words that have a byte are mixed in. */
  function WithTail(h: Quad, tail: Bytes): Quad
    requires |tail| < 16
  {
    if |tail| > 12 then
      Quad(Xor32(h.x1, Scrambled1(PartLE32(tail[..4]))), Xor32(h.x2, Scrambled2(PartLE32(tail[4..8]))),
           Xor32(h.x3, Scrambled3(PartLE32(tail[8..12]))), Xor32(h.x4, Scrambled4(PartLE32(tail[12..]))))
    else if |tail| > 8 then
      Quad(Xor32(h.x1, Scrambled1(PartLE32(tail[..4]))), Xor32(h.x2, Scrambled2(PartLE32(tail[4..8]))),
           Xor32(h.x3, Scrambled3(PartLE32(tail[8..]))), h.x4)
    else if |tail| > 4 then
      Quad(Xor32(h.x1, Scrambled1(PartLE32(tail[..4]))), Xor32(h.x2, Scrambled2(PartLE32(tail[4..]))), h.x3, h.x4)
    else if |tail| > 0 then Quad(Xor32(h.x1, Scrambled1(PartLE32(tail))), h.x2, h.x3, h.x4)
    else h
  }

  lemma TailUndone(h: Quad, tail: Bytes)
    requires |tail| < 16
    ensures WithTail(WithTail(h, tail), tail) == h
  {
    hide Xor32, Scrambled1, Scrambled2, Scrambled3, Scrambled4, PartLE32;
    if |tail| > 12 {
      XorUndone32(h.x1, Scrambled1(PartLE32(tail[..4])));
      XorUndone32(h.x2, Scrambled2(PartLE32(tail[4..8])));
      XorUndone32(h.x3, Scrambled3(PartLE32(tail[8..12])));
      XorUndone32(h.x4, Scrambled4(PartLE32(tail[12..])));
    } else if |tail| > 8 {
      XorUndone32(h.x1, Scrambled1(PartLE32(tail[..4])));
      XorUndone32(h.x2, Scrambled2(PartLE32(tail[4..8])));
      XorUndone32(h.x3, Scrambled3(PartLE32(tail[8..])));
    } else if |tail| > 4 {
      XorUndone32(h.x1, Scrambled1(PartLE32(tail[..4])));
      XorUndone32(h.x2, Scrambled2(PartLE32(tail[4..])));
    } else if |tail| > 0 {
      XorUndone32(h.x1, Scrambled1(PartLE32(tail)));
    }
  }

  lemma TailShows(h: Quad, t: Bytes, u: Bytes)
    requires |t| == |u| < 16 && WithTail(h, t) == WithTail(h, u)
    ensures t == u
  {
    hide Xor32, Scrambled1, Scrambled2, Scrambled3, Scrambled4, PartLE32;
    if |t| > 12 {
      WordShows(h, t[..4], u[..4]);
      WordShows(h, t[4..8], u[4..8]);
      WordShows(h, t[8..12], u[8..12]);
      WordShows(h, t[12..], u[12..]);
      assert t == t[..4] + t[4..8] + t[8..12] + t[12..] && u == u[..4] + u[4..8] + u[8..12] + u[12..];
    } else if |t| > 8 {
      WordShows(h, t[..4], u[..4]);
      WordShows(h, t[4..8], u[4..8]);
      WordShows(h, t[8..], u[8..]);
      assert t == t[..4] + t[4..8] + t[8..] && u == u[..4] + u[4..8] + u[8..];
    } else if |t| > 4 {
      WordShows(h, t[..4], u[..4]);
      WordShows(h, t[4..], u[4..]);
      assert t == t[..4] + t[4..] && u == u[..4] + u[4..];
    } else if |t| > 0 {
      WordShows(h, t, u);
    }
  }

  lemma WordShows(h: Quad, t: Bytes, u: Bytes)
    requires |t| == |u| <= 4
    ensures Xor32(h.x1, Scrambled1(PartLE32(t))) == Xor32(h.x1, Scrambled1(PartLE32(u))) ==> t == u
    ensures Xor32(h.x2, Scrambled2(PartLE32(t))) == Xor32(h.x2, Scrambled2(PartLE32(u))) ==> t == u
    ensures Xor32(h.x3, Scrambled3(PartLE32(t))) == Xor32(h.x3, Scrambled3(PartLE32(u))) ==> t == u
    ensures Xor32(h.x4, Scrambled4(PartLE32(t))) == Xor32(h.x4, Scrambled4(PartLE32(u))) ==> t == u
  {
    hide Xor32, Scrambled1, Scrambled2, Scrambled3, Scrambled4, Unscrambled1, Unscrambled2, Unscrambled3, Unscrambled4, PartLE32, WriteLE32;
    var a, b := PartLE32(t), PartLE32(u);
    ScrambledUndone1(a);
    ScrambledUndone1(b);
    XorUndone32(Scrambled1(a), h.x1);
    XorUndone32(Scrambled1(b), h.x1);
    ScrambledUndone2(a);
    ScrambledUndone2(b);
    XorUndone32(Scrambled2(a), h.x2);
    XorUndone32(Scrambled2(b), h.x2);
    ScrambledUndone3(a);
    ScrambledUndone3(b);
    XorUndone32(Scrambled3(a), h.x3);
    XorUndone32(Scrambled3(b), h.x3);
    ScrambledUndone4(a);
    ScrambledUndone4(b);
    XorUndone32(Scrambled4(a), h.x4);
    XorUndone32(Scrambled4(b), h.x4);
    PartBytes32(t);
    PartBytes32(u);
  }

  /** h1 += h2; h1 += h3; h1 += h4; h2 += h1; h3 += h1; h4 += h1 */
  function Summed(h: Quad): Quad {
    var h1 := Add32(Add32(Add32(h.x1, h.x2), h.x3), h.x4);
    Quad(h1, Add32(h.x2, h1), Add32(h.x3, h1), Add32(h.x4, h1))
  }

  function Unsummed(h: Quad): Quad {
    var h2, h3, h4 := Sub32(h.x2, h.x1), Sub32(h.x3, h.x1), Sub32(h.x4, h.x1);
    Quad(Sub32(Sub32(Sub32(h.x1, h4), h3), h2), h2, h3, h4)
  }

  lemma SummedUndone(h: Quad)
    ensures Unsummed(Summed(h)) == h && Summed(Unsummed(h)) == h
  {
    hide Add32, Sub32;
    forall x: bv32, y: bv32
      ensures Sub32(Add32(x, y), y) == x && Add32(Sub32(x, y), y) == x
    {
      AddUndone32(x, y);
    }
  }

  function WithLength(h: Quad, len: bv32): Quad {
    Quad(Xor32(h.x1, len), Xor32(h.x2, len), Xor32(h.x3, len), Xor32(h.x4, len))
  }

  function Avalanched(h: Quad): Quad {
    Quad(Murmur3x86_32.Fmix(h.x1), Murmur3x86_32.Fmix(h.x2), Murmur3x86_32.Fmix(h.x3), Murmur3x86_32.Fmix(h.x4))
  }

  function Unavalanched(h: Quad): Quad {
    Quad(Murmur3x86_32.Unfmix(h.x1), Murmur3x86_32.Unfmix(h.x2), Murmur3x86_32.Unfmix(h.x3), Murmur3x86_32.Unfmix(h.x4))
  }

  function Finished(h: Quad, tail: Bytes, len: bv32): Quad
    requires |tail| < 16
  {
    Summed(Avalanched(Summed(WithLength(WithTail(h, tail), len))))
  }

  /** The state that finishes as the target. */
  function Unfinished(target: Quad, tail: Bytes, len: bv32): Quad
    requires |tail| < 16
  {
    WithTail(WithLength(Unsummed(Unavalanched(Unsummed(target))), len), tail)
  }

  lemma FinishedUndone(h: Quad, tail: Bytes, len: bv32, target: Quad)
    requires |tail| < 16
    ensures Finished(h, tail, len) == target <==> h == Unfinished(target, tail, len)
  {
    hide WithLength, WithTail, Avalanched, Unavalanched, Summed, Unsummed;
    var a := WithLength(WithTail(h, tail), len);
    SummedUndone(Avalanched(Summed(a)));
    AvalanchedUndone(Summed(a));
    SummedUndone(a);
    LengthUndone(WithTail(h, tail), len);
    TailUndone(h, tail);
    var c := Unavalanched(Unsummed(target));
    SummedUndone(target);
    AvalanchedUndone(Unsummed(target));
    SummedUndone(c);
    LengthUndone(Unsummed(c), len);
    TailUndone(WithLength(Unsummed(c), len), tail);
  }

  lemma AvalanchedUndone(h: Quad)
    ensures Unavalanched(Avalanched(h)) == h && Avalanched(Unavalanched(h)) == h
  {
    hide Murmur3x86_32.Fmix, Murmur3x86_32.Unfmix;
    Murmur3x86_32.FmixUndone(h.x1);
    Murmur3x86_32.FmixUndone(h.x2);
    Murmur3x86_32.FmixUndone(h.x3);
    Murmur3x86_32.FmixUndone(h.x4);
  }

  lemma LengthUndone(h: Quad, len: bv32)
    ensures WithLength(WithLength(h, len), len) == h
  {
    hide Xor32;
    XorUndone32(h.x1, len);
    XorUndone32(h.x2, len);
    XorUndone32(h.x3, len);
    XorUndone32(h.x4, len);
  }

  function Start(seed: bv32): Quad {
    Quad(seed, seed, seed, seed)
  }

  /** The hash as a function of the key. */
  function Hash(key: Bytes, seed: bv32): Quad {
    Finished(BlockMixer.Fold(BlockStep(), Start(seed), Blocks(key)), Rest(16, key), LengthWord32(|key|))
  }

  /** The hash as it runs: blocks, the fall-through switch over the tail, the finalisation. */
  method Murmur3(key: Bytes, seed: bv32) returns (out1: bv32, out2: bv32, out3: bv32, out4: bv32)
    ensures Quad(out1, out2, out3, out4) == Hash(key, seed)
  {
    hide Scrambled1, Scrambled2, Scrambled3, Scrambled4, Stirred, Xor32, Add32, Murmur3x86_32.Fmix, ReadBlock;
    hide LengthWord32, WithTail;
    var h1, h2, h3, h4 := seed, seed, seed, seed;
    var data := key;
    for i := 0 to |key| / 16
      invariant |data| == |key| - 16 * i
      invariant BlockMixer.Fold(BlockStep(), Quad(h1, h2, h3, h4), Blocks(data))
                == BlockMixer.Fold(BlockStep(), Start(seed), Blocks(key))
      invariant Rest(16, data) == Rest(16, key)
    {
      var k := ReadBlock(data[..16]);
      assert Blocks(data)[0] == k && Blocks(data)[1..] == Blocks(data[16..]);
      h1 := Stirred(Xor32(h1, Scrambled1(k.x1)), h2, 19, 0x561CCD1B);
      h2 := Stirred(Xor32(h2, Scrambled2(k.x2)), h3, 17, 0x0BCAA747);
      h3 := Stirred(Xor32(h3, Scrambled3(k.x3)), h4, 15, 0x96CD1C35);
      h4 := Stirred(Xor32(h4, Scrambled4(k.x4)), h1, 13, 0x32AC3B17);
      data := data[16..];
    }
    h1, h2, h3, h4 := SwitchTail(h1, h2, h3, h4, data);
    var len := LengthWord32(|key|);
    h1, h2, h3, h4 := Xor32(h1, len), Xor32(h2, len), Xor32(h3, len), Xor32(h4, len);
    h1, h2, h3, h4 := SumLanes(h1, h2, h3, h4);
    h1, h2 := Murmur3x86_32.Fmix(h1), Murmur3x86_32.Fmix(h2);
    h3, h4 := Murmur3x86_32.Fmix(h3), Murmur3x86_32.Fmix(h4);
    h1, h2, h3, h4 := SumLanes(h1, h2, h3, h4);
    return h1, h2, h3, h4;
  }

  method SumLanes(a1: bv32, a2: bv32, a3: bv32, a4: bv32) returns (h1: bv32, h2: bv32, h3: bv32, h4: bv32)
    ensures Quad(h1, h2, h3, h4) == Summed(Quad(a1, a2, a3, a4))
  {
    hide Add32;
    h1, h2, h3, h4 := a1, a2, a3, a4;
    h1 := Add32(h1, h2);
    h1 := Add32(h1, h3);
    h1 := Add32(h1, h4);
    h2 := Add32(h2, h1);
    h3 := Add32(h3, h1);
    h4 := Add32(h4, h1);
  }

  /** Rows 15 to 13 gather the fourth word and mix it in, rows 12 to 9 the third, and so on down. */
  method SwitchTail(a1: bv32, a2: bv32, a3: bv32, a4: bv32, tail: Bytes)
    returns (h1: bv32, h2: bv32, h3: bv32, h4: bv32)
    requires |tail| < 16
    ensures Quad(h1, h2, h3, h4) == WithTail(Quad(a1, a2, a3, a4), tail)
  {
    hide Scrambled1, Scrambled2, Scrambled3, Scrambled4, Xor32, PartLE32;
    h1, h2, h3, h4 := a1, a2, a3, a4;
    if |tail| > 12 {
      var k4 := GatherTail32(tail[12..]);
      h4 := Xor32(h4, Scrambled4(k4));
    }
    if |tail| > 8 {
      var k3 := GatherTail32(tail[8..if |tail| > 12 then 12 else |tail|]);
      h3 := Xor32(h3, Scrambled3(k3));
    }
    if |tail| > 4 {
      var k2 := GatherTail32(tail[4..if |tail| > 8 then 8 else |tail|]);
      h2 := Xor32(h2, Scrambled2(k2));
    }
    if |tail| > 0 {
      var k1 := GatherTail32(tail[..if |tail| > 4 then 4 else |tail|]);
      h1 := Xor32(h1, Scrambled1(k1));
    }
    assert tail[..|tail|] == tail;
  }

  /** The one block that, between these bytes, makes the key hash to the target. */
  function BlockFor(before: Bytes, after: Bytes, seed: bv32, target: Quad): Quad {
    BlockReaching(BlockStep(), Start(seed), Blocks(before), Blocks(after),
                  Unfinished(target, Rest(16, after), LengthWord32(|before| + 16 + |after|)))
  }

  /** All else fixed, hashing is a bijection of any one whole block: each target is reached, and by one block only. */
  lemma BlockBijection(before: Bytes, block: Bytes, after: Bytes, seed: bv32, target: Quad)
    requires |before| % 16 == 0 && |block| == 16
    ensures Hash(before + block + after, seed) == target <==> block == WriteBlock(BlockFor(before, after, seed, target))
  {
    hide Finished, Unfinished, LengthWord32, ReadBlock, WriteBlock, BlockStep, Blocks, Rest;
    var k, tail, len := ReadBlock(block), Rest(16, after), LengthWord32(|before| + 16 + |after|);
    BlocksAround(before, block, after);
    BlockStepLawful();
    FinishedUndone(BlockMixer.Fold(BlockStep(), Start(seed), Blocks(before + block + after)), tail, len, target);
    OneBlockReaches(BlockStep(), Start(seed), Blocks(before), k, Blocks(after), Unfinished(target, tail, len));
    BlockReadWrite(block, BlockFor(before, after, seed, target));
  }

  /** Keys of one length that differ in the tail alone never collide. */
  lemma TailInjective(blocks: Bytes, t: Bytes, u: Bytes, seed: bv32)
    requires |blocks| % 16 == 0 && |t| == |u| < 16
    requires Hash(blocks + t, seed) == Hash(blocks + u, seed)
    ensures t == u
  {
    hide Finished, Unfinished, LengthWord32, BlockStep, WithTail;
    BlocksConcat(blocks, t);
    BlocksConcat(blocks, u);
    var h, len := BlockMixer.Fold(BlockStep(), Start(seed), Blocks(blocks)), LengthWord32(|blocks + t|);
    assert Blocks(blocks + t) == Blocks(blocks) == Blocks(blocks + u);
    FinishedShows(h, t, u, len);
    TailShows(h, t, u);
  }

  lemma FinishedShows(h: Quad, t: Bytes, u: Bytes, len: bv32)
    requires |t| == |u| < 16 && Finished(h, t, len) == Finished(h, u, len)
    ensures WithTail(h, t) == WithTail(h, u)
  {
    hide WithLength, WithTail, Avalanched, Unavalanched, Summed, Unsummed;
    var a, b := WithLength(WithTail(h, t), len), WithLength(WithTail(h, u), len);
    SummedUndone(Avalanched(Summed(a)));
    SummedUndone(Avalanched(Summed(b)));
    AvalanchedUndone(Summed(a));
    AvalanchedUndone(Summed(b));
    SummedUndone(a);
    SummedUndone(b);
    LengthUndone(WithTail(h, t), len);
    LengthUndone(WithTail(h, u), len);
  }
}
