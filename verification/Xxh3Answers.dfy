/** Known answers of XXH3, one for each class of short and medium lengths and for both widths. Each list of steps
    is a computation on literals; the functions of the hashes are unfolded over it. */
module Xxh3Answers {
  import opened Mixing
  import opened Products
  import opened Words
  import opened KnownAnswers
  import opened Xxh3Evaluation
  import opened Xxh3Injective
  import opened Xxh3Keys
  import opened Xxh3Mix
  import opened Xxh3OneShot
  import opened Xxh3Stripes
  import S64 = Xxh3Short64
  import S128 = Xxh3Short128
  import Xxh64

  // ---- Up to 16 bytes ----

  lemma EmptySteps()
    ensures Xor64(0x4C263A81E69035E0, 0xCB00C391BB52283C) == 0x8726F9105DC21DDC && Xor64(0x0000000000000000, 0x8726F9105DC21DDC) == 0x8726F9105DC21DDC
    ensures XorShr64(0x8726F9105DC21DDC, 33) == 0x8726F9101E516154 && Mul64(0x8726F9101E516154, 0xC2B2AE3D27D4EB4F) == 0x0F93720A750524EC
    ensures XorShr64(0x0F93720A750524EC, 29) == 0x0F93720A099EB4BF && Mul64(0x0F93720A099EB4BF, 0x165667B19E3779F9) == 0x2D06800515D514C7
    ensures XorShr64(0x2D06800515D514C7, 32) == 0x2D06800538D394C2 && Xor64(0xCB00C391BB52283C, 0xA32E531B8B65D088) == 0x682E908A3037F8B4
    ensures Xor64(0x0000000000000000, 0x682E908A3037F8B4) == 0x682E908A3037F8B4 && XorShr64(0x682E908A3037F8B4, 33) == 0x682E908A0420B0F1
    ensures Mul64(0x682E908A0420B0F1, 0xC2B2AE3D27D4EB4F) == 0x7B99A9D58717D55F && XorShr64(0x7B99A9D58717D55F, 29) == 0x7B99A9D65BDA9BF3
    ensures Mul64(0x7B99A9D65BDA9BF3, 0x165667B19E3779F9) == 0x6001C324268C8A5B && XorShr64(0x6001C324268C8A5B, 32) == 0x6001C324468D497F
    ensures Xor64(0x4EF90DA297486471, 0xD8ACDEA946EF1938) == 0x9655D30BD1A77D49 && Xor64(0x0000000000000000, 0x9655D30BD1A77D49) == 0x9655D30BD1A77D49
    ensures XorShr64(0x9655D30BD1A77D49, 33) == 0x9655D30B9A8D94CC && Mul64(0x9655D30B9A8D94CC, 0xC2B2AE3D27D4EB4F) == 0xD41672FAF6382EF4
    ensures XorShr64(0xD41672FAF6382EF4, 29) == 0xD41672FC568BB923 && Mul64(0xD41672FC568BB923, 0x165667B19E3779F9) == 0x99AA06D398ED9E0B
    ensures XorShr64(0x99AA06D398ED9E0B, 32) == 0x99AA06D3014798D8
  {
  }

  /** Of the empty input. */
  lemma EmptyAnswer(k: Kernel)
    ensures Hash(S64.Width64(), k, Default, []) == 0x2D06800538D394C2
    ensures Hash(S128.Width128(), k, Default, []) == Hash128(0x6001C324468D497F, 0x99AA06D3014798D8)
  {
    hide KSecret, WordAt, Hash, S64.Width64, S128.Width128, Xor64, Mul64, XorShr64, S64.Len1To3, S64.Len4To8, S64.Len9To16,
         S64.Len17To128, S64.Len129To240, S128.Len1To3, S128.Len4To8, S128.Len9To16, S128.Len17To128, S128.Len129To240;
    ShortHash(k, Default, []);
    Keys();
    EmptySteps();
  }

  const THREE: Bytes := [0x54, 0x68, 0x65]
  const SIX: Bytes := [0x54, 0x68, 0x65, 0x20, 0x71, 0x75]
  const FOURTEEN: Bytes := [0x54, 0x68, 0x65, 0x20, 0x71, 0x75, 0x69, 0x63, 0x6B, 0x20, 0x62, 0x72, 0x6F, 0x77]

  lemma ThreePacked()
    ensures Packed(THREE) == 0x68540365
  {
  }

  lemma ThreeSteps()
    ensures Low(0xBE4BA423396CFEB8) == 0x396CFEB8 && Upper32(0xBE4BA423396CFEB8) == 0xBE4BA423 && Low(0x1CAD21F72C81017C) == 0x2C81017C
    ensures Upper32(0x1CAD21F72C81017C) == 0x1CAD21F7 && Xor32(0x396CFEB8, 0xBE4BA423) == 0x87275A9B && Xor32(0x2C81017C, 0x1CAD21F7) == 0x302C208B
    ensures Widen32(0x87275A9B) == 0x0000000087275A9B && Widen32(0x302C208B) == 0x00000000302C208B && Widen32(0x68540365) == 0x0000000068540365
    ensures Widen32(0x6A8D0CA0) == 0x000000006A8D0CA0 && Swap32(0x68540365) == 0x65035468 && Rotl32(0x65035468, 13) == 0x6A8D0CA0
    ensures Add64(0x0000000087275A9B, 0x9E3779B185EBCA8D) == 0x9E3779B20D132528 && Xor64(0x0000000068540365, 0x9E3779B20D132528) == 0x9E3779B26547264D
    ensures XorShr64(0x9E3779B26547264D, 33) == 0x9E3779B22A5C9A94 && Mul64(0x9E3779B22A5C9A94, 0xC2B2AE3D27D4EB4F) == 0x57DDB85EA3098FAC
    ensures XorShr64(0x57DDB85EA3098FAC, 29) == 0x57DDB85C1DE44D59 && Mul64(0x57DDB85C1DE44D59, 0x165667B19E3779F9) == 0xE0E7790C87BD4C91
    ensures XorShr64(0xE0E7790C87BD4C91, 32) == 0xE0E7790C675A359D && Sub64(0x00000000302C208B, 0x9E3779B185EBCA8D) == 0x61C8864EAA4055FE
    ensures Xor64(0x000000006A8D0CA0, 0x61C8864EAA4055FE) == 0x61C8864EC0CD595E && XorShr64(0x61C8864EC0CD595E, 33) == 0x61C8864EF0291A79
    ensures Mul64(0x61C8864EF0291A79, 0xC2B2AE3D27D4EB4F) == 0xC40C9AB933303E57 && XorShr64(0xC40C9AB933303E57, 29) == 0xC40C9ABF1354EB9E
    ensures Mul64(0xC40C9ABF1354EB9E, 0x165667B19E3779F9) == 0x15F9DEE513E8DAAE && XorShr64(0x15F9DEE513E8DAAE, 32) == 0x15F9DEE50611044B
  {
  }

  lemma KeyHalves()
    ensures HalfWordAt(KSecret(), 0) == Low(WordAt(KSecret(), 0)) && HalfWordAt(KSecret(), 4) == Upper32(WordAt(KSecret(), 0))
    ensures HalfWordAt(KSecret(), 8) == Low(WordAt(KSecret(), 8)) && HalfWordAt(KSecret(), 12) == Upper32(WordAt(KSecret(), 8))
  {
    hide KSecret, WordAt, Low, Upper32, ReadLE32;
    HalfOfWord(KSecret(), 0);
    HalfOfWord(KSecret(), 8);
    UpperHalfOfWord(KSecret(), 0);
    UpperHalfOfWord(KSecret(), 8);
  }

  /** Of three bytes. */
  lemma ThreeAnswer(k: Kernel)
    ensures Hash(S64.Width64(), k, WithSeed(SEED), THREE) == 0xE0E7790C675A359D
    ensures Hash(S128.Width128(), k, WithSeed(SEED), THREE) == Hash128(0xE0E7790C675A359D, 0x15F9DEE50611044B)
  {
    hide KSecret, WordAt, Hash, S64.Width64, S128.Width128, HalfWordAt, Low, Upper32, Packed, Xor32, Rotl32, Swap32, Widen32,
         Xor64, Mul64, Add64, Sub64, XorShr64, S64.Len0, S64.Len4To8, S64.Len9To16, S64.Len17To128, S64.Len129To240, S128.Len0,
         S128.Len4To8, S128.Len9To16, S128.Len17To128, S128.Len129To240;
    ShortHash(k, WithSeed(SEED), THREE);
    Keys();
    KeyHalves();
    ThreePacked();
    ThreeSteps();
  }

  lemma SixHalves()
    ensures HalfWordAt(SIX, 0) == 0x20656854 && HalfWordAt(SIX, 2) == 0x75712065 && LengthWord64(6) == 6
  {
    assert SIX[0..4] == [0x54, 0x68, 0x65, 0x20] && SIX[2..6] == [0x65, 0x20, 0x71, 0x75];
  }

  lemma SixSteps()
    ensures SwapSeed(SEED) == 0x13FD923485EBCA8D && S64.Input64(0x20656854, 0x75712065) == 0x2065685475712065
    ensures S64.Input64(0x75712065, 0x20656854) == 0x7571206520656854 && Xor64(0x1CAD21F72C81017C, 0xDB979083E96DD4DE) == 0xC73AB174C5ECD5A2
    ensures Sub64(0xC73AB174C5ECD5A2, 0x13FD923485EBCA8D) == 0xB33D1F4040010B15 && Xor64(0x2065685475712065, 0xB33D1F4040010B15) == 0x9358771435702B70
    ensures Rotl64(0x9358771435702B70, 49) == 0x56E126B0EE286AE0 && Rotl64(0x9358771435702B70, 24) == 0x1435702B70935877
    ensures Xor64(0x56E126B0EE286AE0, 0x1435702B70935877) == 0x42D4569B9EBB3297 && Xor64(0x9358771435702B70, 0x42D4569B9EBB3297) == 0xD18C218FABCB19E7
    ensures Mul64(0xD18C218FABCB19E7, 0x9FB21C651E98DF25) == 0x97814A2D3312F763 && XorShrAdd35(0x97814A2D3312F763, 6) == 0x97814A2D21E2DE28
    ensures Mul64(0x97814A2D21E2DE28, 0x9FB21C651E98DF25) == 0x58AFC38F1D0EF3C8 && XorShr64(0x58AFC38F1D0EF3C8, 28) == 0x58AFC38A97F2CB39
    ensures Xor64(0xDB979083E96DD4DE, 0x1F67B3B7A4A44072) == 0xC4F023344DC994AC && Add64(0xC4F023344DC994AC, 0x13FD923485EBCA8D) == 0xD8EDB568D3B55F39
    ensures Xor64(0x7571206520656854, 0xD8EDB568D3B55F39) == 0xAD9C950DF3D0376D && S128.ShiftLeft2(6) == 24
    ensures Add64(0x9E3779B185EBCA87, 24) == 0x9E3779B185EBCA9F && S128.ShiftLeft1(0xA0EB6A583C1D6EB3) == 0x41D6D4B0783ADD66
    ensures Add64(0x6B4C432A0902CC6A, 0x41D6D4B0783ADD66) == 0xAD2317DA813DA9D0 && S128.ShiftRight3(0xAD2317DA813DA9D0) == 0x15A462FB5027B53A
    ensures Xor64(0xA0EB6A583C1D6EB3, 0x15A462FB5027B53A) == 0xB54F08A36C3ADB89 && XorShr64(0xB54F08A36C3ADB89, 35) == 0xB54F08A37A933A9D
    ensures Mul64(0xB54F08A37A933A9D, 0x9FB21C651E98DF25) == 0x1109FBA12A8E3BB1 && XorShr64(0x1109FBA12A8E3BB1, 28) == 0x1109FBA03A1181A3
    ensures XorShr64(0xAD2317DA813DA9D0, 37) == 0xAD2317DA8454B16E && Mul64(0xAD2317DA8454B16E, 0x165667919E3779F9) == 0x1156F118C0DF91FE
    ensures XorShr64(0x1156F118C0DF91FE, 32) == 0x1156F118D18960E6
  {
  }

  lemma SixProduct()
    ensures Mult64To128(0xAD9C950DF3D0376D, 0x9E3779B185EBCA9F) == Hash128(0xA0EB6A583C1D6EB3, 0x6B4C432A0902CC6A)
  {
    hide Mult64To128;
    ProductIs(0xAD9C950DF3D0376D, 0x9E3779B185EBCA9F, 0xA0EB6A583C1D6EB3, 0x6B4C432A0902CC6A);
  }

  /** Of six bytes. */
  lemma SixAnswer(k: Kernel)
    ensures Hash(S64.Width64(), k, WithSeed(SEED), SIX) == 0x58AFC38A97F2CB39
    ensures Hash(S128.Width128(), k, WithSeed(SEED), SIX) == Hash128(0x1109FBA03A1181A3, 0x1156F118D18960E6)
  {
    hide KSecret, WordAt, Hash, S64.Width64, S128.Width128, HalfWordAt, SwapSeed, LengthWord64, Xor64, Mul64, Add64, Sub64,
         XorShr64, XorShrAdd35, Rotl64, Mult64To128, S64.Input64, S128.ShiftLeft1, S128.ShiftLeft2, S128.ShiftRight3, S64.Len0,
         S64.Len1To3, S64.Len9To16, S64.Len17To128, S64.Len129To240, S128.Len0, S128.Len1To3, S128.Len9To16, S128.Len17To128,
         S128.Len129To240;
    ShortHash(k, WithSeed(SEED), SIX);
    Keys();
    SixHalves();
    SixSteps();
    SixProduct();
  }

  lemma FourteenWord0()
    ensures WordAt(FOURTEEN, 0) == 0x6369757120656854 && LengthWord64(14) == 14 && LengthWord64(13) == 13
  {
    assert FOURTEEN[0..8] == [0x54, 0x68, 0x65, 0x20, 0x71, 0x75, 0x69, 0x63];
  }

  lemma FourteenWord6()
    ensures WordAt(FOURTEEN, 6) == 0x776F7262206B6369
  {
    assert FOURTEEN[6..14] == [0x69, 0x63, 0x6B, 0x20, 0x62, 0x72, 0x6F, 0x77];
  }

  lemma FourteenSteps()
    ensures Xor64(0x1F67B3B7A4A44072, 0x78E5C0CC4EE679CB) == 0x6782737BEA4239B9 && Add64(0x6782737BEA4239B9, 0x9E3779B185EBCA8D) == 0x05B9ED2D702E0446
    ensures Xor64(0x6369757120656854, 0x05B9ED2D702E0446) == 0x66D0985C504B6C12 && Xor64(0x2172FFCC7DD05A82, 0x8E2443F7744608B8) == 0xAF56BC3B0996523A
    ensures Sub64(0xAF56BC3B0996523A, 0x9E3779B185EBCA8D) == 0x111F428983AA87AD && Xor64(0x776F7262206B6369, 0x111F428983AA87AD) == 0x667030EBA3C1E4C4
    ensures Xor64(0x717F01629590C5C8, 0x29242B9D30330A00) == 0x585B2AFFA5A3CFC8 && Swap64(0x66D0985C504B6C12) == 0x126C4B505C98D066
    ensures Add64(14, 0x126C4B505C98D066) == 0x126C4B505C98D074 && Add64(0x126C4B505C98D074, 0x667030EBA3C1E4C4) == 0x78DC7C3C005AB538
    ensures Add64(0x78DC7C3C005AB538, 0x585B2AFFA5A3CFC8) == 0xD137A73BA5FE8500 && XorShr64(0xD137A73BA5FE8500, 37) == 0xD137A73BA3773839
    ensures Mul64(0xD137A73BA3773839, 0x165667919E3779F9) == 0xE12C53DE9AC7A071 && XorShr64(0xE12C53DE9AC7A071, 32) == 0xE12C53DE7BEBF3AF
    ensures Xor64(0x6369757120656854, 0x776F7262206B6369) == 0x14060713000E0B3D && Xor64(0x78E5C0CC4EE679CB, 0x2172FFCC7DD05A82) == 0x59973F0033362349
    ensures Sub64(0x59973F0033362349, 0x9E3779B185EBCA8D) == 0xBB5FC54EAD4A58BC && Xor64(0x14060713000E0B3D, 0xBB5FC54EAD4A58BC) == 0xAF59C25DAD445381
    ensures Xor64(0x8E2443F7744608B8, 0x4C263A81E69035E0) == 0xC202797692D63D58 && Add64(0xC202797692D63D58, 0x9E3779B185EBCA8D) == 0x6039F32818C207E5
    ensures Xor64(0x776F7262206B6369, 0x6039F32818C207E5) == 0x1756814A38A9648C
    ensures Mult32To64(0x1756814A38A9648C, 0x85EBCA77 - 1) == 0x1DA4318BCFEED088
    ensures Add64(0x1756814A38A9648C, 0x1DA4318BCFEED088) == 0x34FAB2D608983514 && Add64(0x6C5F659998B932FB, 0x34FAB2D608983514) == 0xA15A186FA151680F
    ensures S128.ShiftLeft54(13) == 0x0340000000000000 && Add64(0x0922AC69F556D307, 0x0340000000000000) == 0x0C62AC69F556D307
    ensures Swap64(0xA15A186FA151680F) == 0x0F6851A16F185AA1 && Xor64(0x0C62AC69F556D307, 0x0F6851A16F185AA1) == 0x030AFDC89A4E89A6
    ensures XorShr64(0x68AED71DFE0FDC3A, 37) == 0x68AED71DFD4AAA82 && Mul64(0x68AED71DFD4AAA82, 0x165667919E3779F9) == 0x2512CACC86254A72
    ensures XorShr64(0x2512CACC86254A72, 32) == 0x2512CACCA33780BE && Mul64(0xA15A186FA151680F, 0xC2B2AE3D27D4EB4F) == 0x3ACEFF5FF810E1A1
    ensures Add64(0x02507408AD00D529, 0x3ACEFF5FF810E1A1) == 0x3D1F7368A511B6CA && XorShr64(0x3D1F7368A511B6CA, 37) == 0x3D1F7368A4F94D51
    ensures Mul64(0x3D1F7368A4F94D51, 0x165667919E3779F9) == 0x60F767EAE66E7CC9 && XorShr64(0x60F767EAE66E7CC9, 32) == 0x60F767EA86991B23
  {
  }

  lemma FourteenFold()
    ensures Mul128Fold64(0x66D0985C504B6C12, 0x667030EBA3C1E4C4) == 0x585B2AFFA5A3CFC8
  {
    hide Mul128Fold64, Xor64;
    FourteenSteps();
    FoldIs(0x66D0985C504B6C12, 0x667030EBA3C1E4C4, 0x717F01629590C5C8, 0x29242B9D30330A00);
  }

  lemma FourteenProducts()
    ensures Mult64To128(0xAF59C25DAD445381, 0x9E3779B185EBCA87) == Hash128(0x0922AC69F556D307, 0x6C5F659998B932FB)
    ensures Mult64To128(0x030AFDC89A4E89A6, 0xC2B2AE3D27D4EB4F) == Hash128(0x68AED71DFE0FDC3A, 0x02507408AD00D529)
  {
    hide Mult64To128;
    ProductIs(0xAF59C25DAD445381, 0x9E3779B185EBCA87, 0x0922AC69F556D307, 0x6C5F659998B932FB);
    ProductIs(0x030AFDC89A4E89A6, 0xC2B2AE3D27D4EB4F, 0x68AED71DFE0FDC3A, 0x02507408AD00D529);
  }

  /** Of fourteen bytes. */
  lemma FourteenAnswer64(k: Kernel)
    ensures Hash(S64.Width64(), k, WithSeed(SEED), FOURTEEN) == 0xE12C53DE7BEBF3AF
  {
    hide KSecret, WordAt, Hash, S64.Width64, S128.Width128, Mul128Fold64, LengthWord64, Xor64, Mul64, Add64, Sub64, XorShr64,
         Swap64, S128.Short, S64.Len0, S64.Len1To3, S64.Len4To8, S64.Len17To128, S64.Len129To240, S128.Len0, S128.Len1To3,
         S128.Len4To8, S128.Len17To128, S128.Len129To240;
    ShortHash(k, WithSeed(SEED), FOURTEEN);
    Keys();
    FourteenWord0();
    FourteenWord6();
    FourteenSteps();
    FourteenFold();
  }

  lemma FourteenAnswer128(k: Kernel)
    ensures Hash(S128.Width128(), k, WithSeed(SEED), FOURTEEN) == Hash128(0x2512CACCA33780BE, 0x60F767EA86991B23)
  {
    hide KSecret, WordAt, Hash, S64.Width64, S128.Width128, Mult64To128, Mult32To64, LengthWord64, Xor64, Mul64, Add64, Sub64,
         XorShr64, Swap64, S128.ShiftLeft54, S64.Short, S64.Len0, S64.Len1To3, S64.Len4To8, S64.Len17To128, S64.Len129To240,
         S128.Len0, S128.Len1To3, S128.Len4To8, S128.Len17To128, S128.Len129To240;
    ShortHash(k, WithSeed(SEED), FOURTEEN);
    Keys();
    FourteenWord0();
    FourteenWord6();
    FourteenSteps();
    FourteenProducts();
  }

  // ---- 17 to 128 bytes ----

  lemma FoxJoins()
    ensures Joined3(0x206E776F7262206B, 0x706D756A20786F66) == 0x786F66206E776F72
    ensures Joined3(0x706D756A20786F66, 0x74207265766F2073) == 0x6F2073706D756A20
    ensures Joined3(0x74207265766F2073, 0x20797A616C206568) == 0x2065687420726576
  {
  }

  lemma LastEleven()
    ensures ReadLE64((Word8(4) + LAST3)[3..11]) == 0x676F6420797A616C
  {
    assert (Word8(4) + LAST3)[3..11] == [0x6C, 0x61, 0x7A, 0x79, 0x20, 0x64, 0x6F, 0x67];
  }

  lemma FoxWord35()
    ensures WordAt(Fox(), 35) == 0x676F6420797A616C
  {
    hide Row, Word8;
    Parts(Row(0) + Row(1), Word8(4) + LAST3);
    assert Fox() == (Row(0) + Row(1)) + (Word8(4) + LAST3);
    assert Fox()[35..43] == (Word8(4) + LAST3)[3..11];
    LastEleven();
  }

  lemma FoxAligned()
    ensures WordAt(Fox(), 0) == ReadLE64(Word8(0)) && WordAt(Fox(), 8) == ReadLE64(Word8(1)) && WordAt(Fox(), 16) == ReadLE64(Word8(2))
    ensures WordAt(Fox(), 24) == ReadLE64(Word8(3)) && WordAt(Fox(), 32) == ReadLE64(Word8(4))
  {
    hide ReadLE64, Word8;
    assert Fox()[0..8] == Word8(0);
    assert Fox()[8..16] == Word8(1);
    assert Fox()[16..24] == Word8(2);
    assert Fox()[24..32] == Word8(3);
    assert Fox()[32..40] == Word8(4);
  }

  lemma FoxWords()
    ensures WordAt(Fox(), 0) == 0x6369757120656854 && WordAt(Fox(), 8) == 0x206E776F7262206B && WordAt(Fox(), 11) == 0x786F66206E776F72
    ensures WordAt(Fox(), 16) == 0x706D756A20786F66 && WordAt(Fox(), 19) == 0x6F2073706D756A20 && WordAt(Fox(), 24) == 0x74207265766F2073
    ensures WordAt(Fox(), 27) == 0x2065687420726576 && WordAt(Fox(), 32) == 0x20797A616C206568 && WordAt(Fox(), 35) == 0x676F6420797A616C
  {
    hide Fox, WordAt, ReadLE64, Joined3;
    FoxAligned();
    Words8();
    FoxJoins();
    Straddle3(Fox(), 8);
    Straddle3(Fox(), 16);
    Straddle3(Fox(), 24);
    FoxWord35();
  }

  lemma FoxMixesSteps()
    ensures Add64(0x78E5C0CC4EE679CB, 0) == 0x78E5C0CC4EE679CB && Xor64(0x706D756A20786F66, 0x78E5C0CC4EE679CB) == 0x0888B5A66E9E16AD
    ensures Sub64(0x2172FFCC7DD05A82, 0) == 0x2172FFCC7DD05A82 && Xor64(0x74207265766F2073, 0x2172FFCC7DD05A82) == 0x55528DA90BBF7AF1
    ensures Xor64(0xAA75E686D3B4CADD, 0x02D824D360BAC3DD) == 0xA8ADC255B30E0900 && Add64(0x8E2443F7744608B8, 0) == 0x8E2443F7744608B8
    ensures Xor64(0x786F66206E776F72, 0x8E2443F7744608B8) == 0xF64B25D71A3167CA && Sub64(0x4C263A81E69035E0, 0) == 0x4C263A81E69035E0
    ensures Xor64(0x6F2073706D756A20, 0x4C263A81E69035E0) == 0x230649F18BE55FC0 && Xor64(0x0BE1C4C28043CD80, 0x21B253131CBFCF34) == 0x2A5397D19CFC02B4
    ensures Add64(0xBE4BA423396CFEB8, 0) == 0xBE4BA423396CFEB8 && Xor64(0x6369757120656854, 0xBE4BA423396CFEB8) == 0xDD22D152190996EC
    ensures Sub64(0x1CAD21F72C81017C, 0) == 0x1CAD21F72C81017C && Xor64(0x206E776F7262206B, 0x1CAD21F72C81017C) == 0x3CC356985EE32117
    ensures Xor64(0x784300A5F794FB34, 0x347CE562005C2A26) == 0x4C3FE5C7F7C8D112 && Add64(0xDB979083E96DD4DE, 0) == 0xDB979083E96DD4DE
    ensures Xor64(0x2065687420726576, 0xDB979083E96DD4DE) == 0xFBF2F8F7C91FB1A8 && Sub64(0x1F67B3B7A4A44072, 0) == 0x1F67B3B7A4A44072
    ensures Xor64(0x676F6420797A616C, 0x1F67B3B7A4A44072) == 0x7808D797DDDE211E && Xor64(0x3537C5E8BF4D79B0, 0x7622987A73C9768F) == 0x43155D92CC840F3F
  {
  }

  lemma FoxMixesFolds()
    ensures Mul128Fold64(0x0888B5A66E9E16AD, 0x55528DA90BBF7AF1) == 0xA8ADC255B30E0900
    ensures Mul128Fold64(0xF64B25D71A3167CA, 0x230649F18BE55FC0) == 0x2A5397D19CFC02B4
    ensures Mul128Fold64(0xDD22D152190996EC, 0x3CC356985EE32117) == 0x4C3FE5C7F7C8D112
    ensures Mul128Fold64(0xFBF2F8F7C91FB1A8, 0x7808D797DDDE211E) == 0x43155D92CC840F3F
  {
    hide Mul128Fold64, Xor64;
    FoxMixesSteps();
    FoldIs(0x0888B5A66E9E16AD, 0x55528DA90BBF7AF1, 0xAA75E686D3B4CADD, 0x02D824D360BAC3DD);
    FoldIs(0xF64B25D71A3167CA, 0x230649F18BE55FC0, 0x0BE1C4C28043CD80, 0x21B253131CBFCF34);
    FoldIs(0xDD22D152190996EC, 0x3CC356985EE32117, 0x784300A5F794FB34, 0x347CE562005C2A26);
    FoldIs(0xFBF2F8F7C91FB1A8, 0x7808D797DDDE211E, 0x3537C5E8BF4D79B0, 0x7622987A73C9768F);
  }

  lemma FoxMixes()
    ensures MixIs(Fox(), 16, KSecret(), 32, 0, 0xA8ADC255B30E0900) && MixIs(Fox(), 11, KSecret(), 48, 0, 0x2A5397D19CFC02B4)
    ensures MixIs(Fox(), 0, KSecret(), 0, 0, 0x4C3FE5C7F7C8D112) && MixIs(Fox(), 27, KSecret(), 16, 0, 0x43155D92CC840F3F)
  {
    hide Fox, KSecret, WordAt, Mul128Fold64, MixIs, Xor64, Add64, Sub64;
    Keys();
    FoxWords();
    FoxMixesSteps();
    FoxMixesFolds();
    MixAt(Fox(), 16, KSecret(), 32, 0);
    MixAt(Fox(), 11, KSecret(), 48, 0);
    MixAt(Fox(), 0, KSecret(), 0, 0);
    MixAt(Fox(), 27, KSecret(), 16, 0);
  }

  lemma FoxSteps()
    ensures Mul64(43, 0x9E3779B185EBCA87) == 0x935170D17E9B04AD && Add64(0x935170D17E9B04AD, 0xA8ADC255B30E0900) == 0x3BFF332731A90DAD
    ensures Add64(0x3BFF332731A90DAD, 0x2A5397D19CFC02B4) == 0x6652CAF8CEA51061 && Add64(0x6652CAF8CEA51061, 0x4C3FE5C7F7C8D112) == 0xB292B0C0C66DE173
    ensures Add64(0xB292B0C0C66DE173, 0x43155D92CC840F3F) == 0xF5A80E5392F1F0B2 && XorShr64(0xF5A80E5392F1F0B2, 37) == 0xF5A80E53955CB0C0
    ensures Mul64(0xF5A80E53955CB0C0, 0x165667919E3779F9) == 0xCE7D19A58FF2AAC0 && XorShr64(0xCE7D19A58FF2AAC0, 32) == 0xCE7D19A5418FB365
    ensures Mul64(43, 0x9E3779B185EBCA87) == 0x935170D17E9B04AD && Add64(0x935170D17E9B04AD, 0xA8ADC255B30E0900) == 0x3BFF332731A90DAD
    ensures Add64(0x786F66206E776F72, 0x6F2073706D756A20) == 0xE78FD990DBECD992 && Xor64(0x3BFF332731A90DAD, 0xE78FD990DBECD992) == 0xDC70EAB7EA45D43F
    ensures Add64(0, 0x2A5397D19CFC02B4) == 0x2A5397D19CFC02B4 && Add64(0x706D756A20786F66, 0x74207265766F2073) == 0xE48DE7CF96E78FD9
    ensures Xor64(0x2A5397D19CFC02B4, 0xE48DE7CF96E78FD9) == 0xCEDE701E0A1B8D6D && Add64(0xDC70EAB7EA45D43F, 0x4C3FE5C7F7C8D112) == 0x28B0D07FE20EA551
    ensures Add64(0x2065687420726576, 0x676F6420797A616C) == 0x87D4CC9499ECC6E2 && Xor64(0x28B0D07FE20EA551, 0x87D4CC9499ECC6E2) == 0xAF641CEB7BE263B3
    ensures Add64(0xCEDE701E0A1B8D6D, 0x43155D92CC840F3F) == 0x11F3CDB0D69F9CAC && Add64(0x6369757120656854, 0x206E776F7262206B) == 0x83D7ECE092C788BF
    ensures Xor64(0x11F3CDB0D69F9CAC, 0x83D7ECE092C788BF) == 0x9224215044581413
    ensures Add64(0xAF641CEB7BE263B3, 0x9224215044581413) == 0x41883E3BC03A77C6 && Mul64(0xAF641CEB7BE263B3, 0x9E3779B185EBCA87) == 0xEE3FF04F7B5ED165
    ensures Mul64(0x9224215044581413, 0x85EBCA77C2B2AE63) == 0xA17107C7A6EAAD59 && Add64(0xEE3FF04F7B5ED165, 0xA17107C7A6EAAD59) == 0x8FB0F81722497EBE
    ensures Sub64(43, 0) == 43 && Mul64(43, 0xC2B2AE3D27D4EB4F) == 0xB4034445B0C38645
    ensures Add64(0x8FB0F81722497EBE, 0xB4034445B0C38645) == 0x43B43C5CD30D0503 && XorShr64(0x41883E3BC03A77C6, 37) == 0x41883E3BC2363637
    ensures Mul64(0x41883E3BC2363637, 0x165667919E3779F9) == 0x24A1CC2E1E2BBA7F && XorShr64(0x24A1CC2E1E2BBA7F, 32) == 0x24A1CC2E3A8A7651
    ensures XorShr64(0x43B43C5CD30D0503, 37) == 0x43B43C5CD110A4E1 && Mul64(0x43B43C5CD110A4E1, 0x165667919E3779F9) == 0x2229AFDF8175B7D9
    ensures XorShr64(0x2229AFDF8175B7D9, 32) == 0x2229AFDFA35C1806 && Sub64(0, 0x2229AFDFA35C1806) == 0xDDD650205CA3E7FA
  {
  }

  lemma FoxHash64()
    ensures S64.Short(Fox(), KSecret(), 0) == 0xCE7D19A5418FB365
  {
    hide Fox, KSecret, MixIs, Mul64, Add64, XorShr64, LengthWord64, S64.MixPair, S64.MixPairs, S64.Len0, S64.Len1To3, S64.Len4To8,
         S64.Len9To16, S64.Len129To240, S128.Len0, S128.Len1To3, S128.Len4To8, S128.Len9To16, S128.Len129To240;
    Length43Wide();
    FoxMixes();
    FoxSteps();
    S64.MixPairsStep(0x935170D17E9B04AD, Fox(), KSecret(), 0, 1);
    S64.MixPairsStep(0x6652CAF8CEA51061, Fox(), KSecret(), 0, 0);
    PairIs(0x935170D17E9B04AD, Fox(), KSecret(), 0, 1, 0xA8ADC255B30E0900, 0x2A5397D19CFC02B4);
    PairIs(0x6652CAF8CEA51061, Fox(), KSecret(), 0, 0, 0x4C3FE5C7F7C8D112, 0x43155D92CC840F3F);
  }

  lemma FoxPairs()
    ensures S128.MixPairs(Hash128(0x935170D17E9B04AD, 0), Fox(), KSecret(), 0, 1) == Hash128(0xAF641CEB7BE263B3, 0x9224215044581413)
  {
    hide Fox, KSecret, WordAt, MixIs, Mixed, Xor64, Add64, S128.MixPair, S128.MixPairs;
    FoxWords();
    FoxMixes();
    FoxSteps();
    PairsStep(Hash128(0x935170D17E9B04AD, 0), Fox(), KSecret(), 0, 1);
    PairsStep(Hash128(0xDC70EAB7EA45D43F, 0xCEDE701E0A1B8D6D), Fox(), KSecret(), 0, 0);
    PairAt(Hash128(0x935170D17E9B04AD, 0), Fox(), KSecret(), 0, 1);
    PairAt(Hash128(0xDC70EAB7EA45D43F, 0xCEDE701E0A1B8D6D), Fox(), KSecret(), 0, 0);
    MixedIs(Hash128(0x935170D17E9B04AD, 0), Fox(), 16, 11, KSecret(), 32, 0, 0xA8ADC255B30E0900, 0x2A5397D19CFC02B4);
    MixedIs(Hash128(0xDC70EAB7EA45D43F, 0xCEDE701E0A1B8D6D), Fox(), 0, 27, KSecret(), 0, 0, 0x4C3FE5C7F7C8D112, 0x43155D92CC840F3F);
  }

  lemma FoxHash128()
    ensures S128.Short(Fox(), KSecret(), 0) == Hash128(0x24A1CC2E3A8A7651, 0xDDD650205CA3E7FA)
  {
    hide Fox, KSecret, Mul64, Add64, Sub64, XorShr64, LengthWord64, S128.MixPairs, S64.Len0, S64.Len1To3, S64.Len4To8,
         S64.Len9To16, S64.Len129To240, S128.Len0, S128.Len1To3, S128.Len4To8, S128.Len9To16, S128.Len129To240;
    Length43Wide();
    FoxSteps();
    FoxPairs();
  }

  /** Of the pangram. */
  lemma FoxAnswer(k: Kernel)
    ensures Hash(S64.Width64(), k, Default, Fox()) == 0xCE7D19A5418FB365
    ensures Hash(S128.Width128(), k, Default, Fox()) == Hash128(0x24A1CC2E3A8A7651, 0xDDD650205CA3E7FA)
  {
    hide KSecret, WordAt, Hash, S64.Width64, S128.Width128, Fox, S64.Short, S128.Short;
    ShortHash(k, Default, Fox());
    FoxHash64();
    FoxHash128();
  }

  // ---- 129 to 240 bytes ----

  /** The first 160 bytes of the default secret, as an input. */
  function Data160(): (s: Bytes)
    ensures |s| == 160
  {
    KSecret()[..160]
  }

  lemma Length160()
    ensures LengthWord64(160) == 160
  {
  }

  lemma DataWords()
    ensures WordAt(Data160(), 0) == 0xBE4BA423396CFEB8 && WordAt(Data160(), 8) == 0x1CAD21F72C81017C && WordAt(Data160(), 16) == 0xDB979083E96DD4DE
    ensures WordAt(Data160(), 24) == 0x1F67B3B7A4A44072 && WordAt(Data160(), 32) == 0x78E5C0CC4EE679CB && WordAt(Data160(), 40) == 0x2172FFCC7DD05A82
    ensures WordAt(Data160(), 48) == 0x8E2443F7744608B8 && WordAt(Data160(), 56) == 0x4C263A81E69035E0 && WordAt(Data160(), 64) == 0xCB00C391BB52283C
    ensures WordAt(Data160(), 72) == 0xA32E531B8B65D088 && WordAt(Data160(), 80) == 0x4EF90DA297486471 && WordAt(Data160(), 88) == 0xD8ACDEA946EF1938
    ensures WordAt(Data160(), 96) == 0x3F349CE33F76FAA8 && WordAt(Data160(), 104) == 0x1D4F0BC7C7BBDCF9
    ensures WordAt(Data160(), 112) == 0x3159B4CD4BE0518A
    ensures WordAt(Data160(), 120) == 0x647378D9C97E9FC8 && WordAt(Data160(), 128) == 0xC3EBD33483ACC5EA
    ensures WordAt(Data160(), 136) == 0xEB6313FAFFA081C5
    ensures WordAt(Data160(), 144) == 0x49DAF0B751DD0D17 && WordAt(Data160(), 152) == 0x9E68D429265516D3
  {
    hide KSecret, WordAt;
    Keys();
    WordOfPrefix(KSecret(), 160, 0);
    WordOfPrefix(KSecret(), 160, 8);
    WordOfPrefix(KSecret(), 160, 16);
    WordOfPrefix(KSecret(), 160, 24);
    WordOfPrefix(KSecret(), 160, 32);
    WordOfPrefix(KSecret(), 160, 40);
    WordOfPrefix(KSecret(), 160, 48);
    WordOfPrefix(KSecret(), 160, 56);
    WordOfPrefix(KSecret(), 160, 64);
    WordOfPrefix(KSecret(), 160, 72);
    WordOfPrefix(KSecret(), 160, 80);
    WordOfPrefix(KSecret(), 160, 88);
    WordOfPrefix(KSecret(), 160, 96);
    WordOfPrefix(KSecret(), 160, 104);
    WordOfPrefix(KSecret(), 160, 112);
    WordOfPrefix(KSecret(), 160, 120);
    WordOfPrefix(KSecret(), 160, 128);
    WordOfPrefix(KSecret(), 160, 136);
    WordOfPrefix(KSecret(), 160, 144);
    WordOfPrefix(KSecret(), 160, 152);
  }

  lemma MixSteps()
    ensures Add64(0xBE4BA423396CFEB8, 0x9E3779B185EBCA8D) == 0x5C831DD4BF58C945 && Xor64(0xBE4BA423396CFEB8, 0x5C831DD4BF58C945) == 0xE2C8B9F7863437FD
    ensures Sub64(0x1CAD21F72C81017C, 0x9E3779B185EBCA8D) == 0x7E75A845A69536EF && Xor64(0x1CAD21F72C81017C, 0x7E75A845A69536EF) == 0x62D889B28A143793
    ensures Xor64(0xA8A2EC2409C78147, 0x5790AA893FA21B94) == 0xFF3246AD36659AD3 && Add64(0xDB979083E96DD4DE, 0x9E3779B185EBCA8D) == 0x79CF0A356F599F6B
    ensures Xor64(0xDB979083E96DD4DE, 0x79CF0A356F599F6B) == 0xA2589AB686344BB5 && Sub64(0x1F67B3B7A4A44072, 0x9E3779B185EBCA8D) == 0x81303A061EB875E5
    ensures Xor64(0x1F67B3B7A4A44072, 0x81303A061EB875E5) == 0x9E5789B1BA1C3597 && Xor64(0xDAF2ED50C65120C3, 0x646A32EB5AF0CC99) == 0xBE98DFBB9CA1EC5A
    ensures Add64(0x78E5C0CC4EE679CB, 0x9E3779B185EBCA8D) == 0x171D3A7DD4D24458 && Xor64(0x78E5C0CC4EE679CB, 0x171D3A7DD4D24458) == 0x6FF8FAB19A343D93
    ensures Sub64(0x2172FFCC7DD05A82, 0x9E3779B185EBCA8D) == 0x833B861AF7E48FF5 && Xor64(0x2172FFCC7DD05A82, 0x833B861AF7E48FF5) == 0xA24979D68A34D577
    ensures Xor64(0x0C36BD8BE55FEE55, 0x46FBB1EE654CDD4B) == 0x4ACD0C658013331E && Add64(0x8E2443F7744608B8, 0x9E3779B185EBCA8D) == 0x2C5BBDA8FA31D345
    ensures Xor64(0x8E2443F7744608B8, 0x2C5BBDA8FA31D345) == 0xA27FFE5F8E77DBFD && Sub64(0x4C263A81E69035E0, 0x9E3779B185EBCA8D) == 0xADEEC0D060A46B53
    ensures Xor64(0x4C263A81E69035E0, 0xADEEC0D060A46B53) == 0xE1C8FA5186345EB3 && Xor64(0xAA4B4DACBDF9B7E7, 0x8F52117574F7B09C) == 0x25195CD9C90E077B
    ensures Add64(0xCB00C391BB52283C, 0x9E3779B185EBCA8D) == 0x69383D43413DF2C9 && Xor64(0xCB00C391BB52283C, 0x69383D43413DF2C9) == 0xA238FED2FA6FDAF5
    ensures Sub64(0xA32E531B8B65D088, 0x9E3779B185EBCA8D) == 0x04F6D96A057A05FB && Xor64(0xA32E531B8B65D088, 0x04F6D96A057A05FB) == 0xA7D88A718E1FD573
    ensures Xor64(0x97361A49FB18350F, 0x6A5C660D51F845D9) == 0xFD6A7C44AAE070D6 && Add64(0x4EF90DA297486471, 0x9E3779B185EBCA8D) == 0xED3087541D342EFE
    ensures Xor64(0x4EF90DA297486471, 0xED3087541D342EFE) == 0xA3C98AF68A7C4A8F && Sub64(0xD8ACDEA946EF1938, 0x9E3779B185EBCA8D) == 0x3A7564F7C1034EAB
    ensures Xor64(0xD8ACDEA946EF1938, 0x3A7564F7C1034EAB) == 0xE2D9BA5E87EC5793 && Xor64(0x424A1109E789691D, 0x912339C15B2BC26E) == 0xD36928C8BCA2AB73
    ensures Add64(0x3F349CE33F76FAA8, 0x9E3779B185EBCA8D) == 0xDD6C1694C562C535 && Xor64(0x3F349CE33F76FAA8, 0xDD6C1694C562C535) == 0xE2588A77FA143F9D
    ensures Sub64(0x1D4F0BC7C7BBDCF9, 0x9E3779B185EBCA8D) == 0x7F17921641D0126C && Xor64(0x1D4F0BC7C7BBDCF9, 0x7F17921641D0126C) == 0x625899D1866BCE95
    ensures Xor64(0xE68607009D985C61, 0x56F43B71B2DE21DC) == 0xB0723C712F467DBD && Add64(0x3159B4CD4BE0518A, 0x9E3779B185EBCA8D) == 0xCF912E7ED1CC1C17
    ensures Xor64(0x3159B4CD4BE0518A, 0xCF912E7ED1CC1C17) == 0xFEC89AB39A2C4D9D && Sub64(0x647378D9C97E9FC8, 0x9E3779B185EBCA8D) == 0xC63BFF284392D53B
    ensures Xor64(0x647378D9C97E9FC8, 0xC63BFF284392D53B) == 0xA24887F18AEC4AF3 && Xor64(0xF29BA18755390E07, 0xA183219D58C50DDF) == 0x5318801A0DFC03D8
    ensures Add64(0x81017CBE4BA42339, 0x9E3779B185EBCA8D) == 0x1F38F66FD18FEDC6 && Xor64(0xC3EBD33483ACC5EA, 0x1F38F66FD18FEDC6) == 0xDCD3255B5223282C
    ensures Sub64(0x6DD4DE1CAD21F72C, 0x9E3779B185EBCA8D) == 0xCF9D646B27362C9F && Xor64(0xEB6313FAFFA081C5, 0xCF9D646B27362C9F) == 0x24FE7791D896AD5A
    ensures Xor64(0x2C87D8074C49DB78, 0x1FE931E3DCF22D35) == 0x336EE9E490BBF64D && Add64(0xA44072DB979083E9, 0x9E3779B185EBCA8D) == 0x4277EC8D1D7C4E76
    ensures Xor64(0x49DAF0B751DD0D17, 0x4277EC8D1D7C4E76) == 0x0BAD1C3A4CA14361 && Sub64(0xE679CB1F67B3B7A4, 0x9E3779B185EBCA8D) == 0x4842516DE1C7ED17
    ensures Xor64(0x9E68D429265516D3, 0x4842516DE1C7ED17) == 0xD62A8544C792FBC4 && Xor64(0x5CC91FE19CD9B144, 0x09C4A613705F6F3B) == 0x550DB9F2EC86DE7F
    ensures Add64(0x7378D9C97E9FC831, 0x9E3779B185EBCA8D) == 0x11B0537B048B92BE && Xor64(0x49DAF0B751DD0D17, 0x11B0537B048B92BE) == 0x586AA3CC55569FA9
    ensures Sub64(0xEBD33483ACC5EA64, 0x9E3779B185EBCA8D) == 0x4D9BBAD226DA1FD7 && Xor64(0x9E68D429265516D3, 0x4D9BBAD226DA1FD7) == 0xD3F36EFB008F0904
    ensures Xor64(0x5D849247905E6FA4, 0x4933F88F686D3383) == 0x14B76AC8F8335C27
    ensures Add64(0x4F0BC7C7BBDCF93F, 0x61C8864E7A143573) == 0xB0D44E1635F12EB2 && Xor64(0x49DAF0B751DD0D17, 0xB0D44E1635F12EB2) == 0xF90EBEA1642C23A5
    ensures Sub64(0x59B4CD4BE0518A1D, 0x61C8864E7A143573) == 0xF7EC46FD663D54AA && Xor64(0x9E68D429265516D3, 0xF7EC46FD663D54AA) == 0x698492D440684279
    ensures Xor64(0x7EAF0F97751562FD, 0x66A806A364E4C87A) == 0x1807093411F1AA87 && Add64(0x7378D9C97E9FC831, 0x61C8864E7A143573) == 0xD5416017F8B3FDA4
    ensures Xor64(0xC3EBD33483ACC5EA, 0xD5416017F8B3FDA4) == 0x16AAB3237B1F384E && Sub64(0xEBD33483ACC5EA64, 0x61C8864E7A143573) == 0x8A0AAE3532B1B4F1
    ensures Xor64(0xEB6313FAFFA081C5, 0x8A0AAE3532B1B4F1) == 0x6169BDCFCD113534 && Xor64(0x818405EDAC2D95D8, 0x08A00AB257A49739) == 0x89240F5FFB8902E1
  {
  }

  lemma MixesTo64()
    ensures MixIs(Data160(), 0, KSecret(), 0, SEED, 0xFF3246AD36659AD3) && MixIs(Data160(), 16, KSecret(), 16, SEED, 0xBE98DFBB9CA1EC5A)
    ensures MixIs(Data160(), 32, KSecret(), 32, SEED, 0x4ACD0C658013331E) && MixIs(Data160(), 48, KSecret(), 48, SEED, 0x25195CD9C90E077B)
  {
    hide Data160, KSecret, WordAt, Mul128Fold64, MixIs, Xor64, Add64, Sub64;
    Keys();
    DataWords();
    MixSteps();
    MixFolds();
    MixAt(Data160(), 0, KSecret(), 0, SEED);
    MixAt(Data160(), 16, KSecret(), 16, SEED);
    MixAt(Data160(), 32, KSecret(), 32, SEED);
    MixAt(Data160(), 48, KSecret(), 48, SEED);
  }

  lemma MixesTo128()
    ensures MixIs(Data160(), 64, KSecret(), 64, SEED, 0xFD6A7C44AAE070D6) && MixIs(Data160(), 80, KSecret(), 80, SEED, 0xD36928C8BCA2AB73)
    ensures MixIs(Data160(), 96, KSecret(), 96, SEED, 0xB0723C712F467DBD) && MixIs(Data160(), 112, KSecret(), 112, SEED, 0x5318801A0DFC03D8)
  {
    hide Data160, KSecret, WordAt, Mul128Fold64, MixIs, Xor64, Add64, Sub64;
    Keys();
    DataWords();
    MixSteps();
    MixFolds();
    MixAt(Data160(), 64, KSecret(), 64, SEED);
    MixAt(Data160(), 80, KSecret(), 80, SEED);
    MixAt(Data160(), 96, KSecret(), 96, SEED);
    MixAt(Data160(), 112, KSecret(), 112, SEED);
  }

  lemma MixesTo160()
    ensures MixIs(Data160(), 128, KSecret(), 3, SEED, 0x336EE9E490BBF64D) && MixIs(Data160(), 144, KSecret(), 19, SEED, 0x550DB9F2EC86DE7F)
    ensures MixIs(Data160(), 144, KSecret(), 119, SEED, 0x14B76AC8F8335C27)
  {
    hide Data160, KSecret, WordAt, Mul128Fold64, MixIs, Xor64, Add64, Sub64;
    Keys();
    KeysAt11();
    KeysOfMedium();
    DataWords();
    MixSteps();
    MixFolds();
    MixAt(Data160(), 128, KSecret(), 3, SEED);
    MixAt(Data160(), 144, KSecret(), 19, SEED);
    MixAt(Data160(), 144, KSecret(), 119, SEED);
  }

  lemma MixFolds()
    ensures Mul128Fold64(0xE2C8B9F7863437FD, 0x62D889B28A143793) == 0xFF3246AD36659AD3
    ensures Mul128Fold64(0xA2589AB686344BB5, 0x9E5789B1BA1C3597) == 0xBE98DFBB9CA1EC5A
    ensures Mul128Fold64(0x6FF8FAB19A343D93, 0xA24979D68A34D577) == 0x4ACD0C658013331E
    ensures Mul128Fold64(0xA27FFE5F8E77DBFD, 0xE1C8FA5186345EB3) == 0x25195CD9C90E077B
    ensures Mul128Fold64(0xA238FED2FA6FDAF5, 0xA7D88A718E1FD573) == 0xFD6A7C44AAE070D6
    ensures Mul128Fold64(0xA3C98AF68A7C4A8F, 0xE2D9BA5E87EC5793) == 0xD36928C8BCA2AB73
    ensures Mul128Fold64(0xE2588A77FA143F9D, 0x625899D1866BCE95) == 0xB0723C712F467DBD
    ensures Mul128Fold64(0xFEC89AB39A2C4D9D, 0xA24887F18AEC4AF3) == 0x5318801A0DFC03D8
    ensures Mul128Fold64(0xDCD3255B5223282C, 0x24FE7791D896AD5A) == 0x336EE9E490BBF64D
    ensures Mul128Fold64(0x0BAD1C3A4CA14361, 0xD62A8544C792FBC4) == 0x550DB9F2EC86DE7F
    ensures Mul128Fold64(0x586AA3CC55569FA9, 0xD3F36EFB008F0904) == 0x14B76AC8F8335C27
    ensures Mul128Fold64(0xF90EBEA1642C23A5, 0x698492D440684279) == 0x1807093411F1AA87
    ensures Mul128Fold64(0x16AAB3237B1F384E, 0x6169BDCFCD113534) == 0x89240F5FFB8902E1
  {
    hide Mul128Fold64, Xor64;
    MixSteps();
    FoldIs(0xE2C8B9F7863437FD, 0x62D889B28A143793, 0xA8A2EC2409C78147, 0x5790AA893FA21B94);
    FoldIs(0xA2589AB686344BB5, 0x9E5789B1BA1C3597, 0xDAF2ED50C65120C3, 0x646A32EB5AF0CC99);
    FoldIs(0x6FF8FAB19A343D93, 0xA24979D68A34D577, 0x0C36BD8BE55FEE55, 0x46FBB1EE654CDD4B);
    FoldIs(0xA27FFE5F8E77DBFD, 0xE1C8FA5186345EB3, 0xAA4B4DACBDF9B7E7, 0x8F52117574F7B09C);
    FoldIs(0xA238FED2FA6FDAF5, 0xA7D88A718E1FD573, 0x97361A49FB18350F, 0x6A5C660D51F845D9);
    FoldIs(0xA3C98AF68A7C4A8F, 0xE2D9BA5E87EC5793, 0x424A1109E789691D, 0x912339C15B2BC26E);
    FoldIs(0xE2588A77FA143F9D, 0x625899D1866BCE95, 0xE68607009D985C61, 0x56F43B71B2DE21DC);
    FoldIs(0xFEC89AB39A2C4D9D, 0xA24887F18AEC4AF3, 0xF29BA18755390E07, 0xA183219D58C50DDF);
    FoldIs(0xDCD3255B5223282C, 0x24FE7791D896AD5A, 0x2C87D8074C49DB78, 0x1FE931E3DCF22D35);
    FoldIs(0x0BAD1C3A4CA14361, 0xD62A8544C792FBC4, 0x5CC91FE19CD9B144, 0x09C4A613705F6F3B);
    FoldIs(0x586AA3CC55569FA9, 0xD3F36EFB008F0904, 0x5D849247905E6FA4, 0x4933F88F686D3383);
    FoldIs(0xF90EBEA1642C23A5, 0x698492D440684279, 0x7EAF0F97751562FD, 0x66A806A364E4C87A);
    FoldIs(0x16AAB3237B1F384E, 0x6169BDCFCD113534, 0x818405EDAC2D95D8, 0x08A00AB257A49739);
  }

  lemma LastMixes()
    ensures MixIs(Data160(), 144, KSecret(), 103, 0x61C8864E7A143573, 0x1807093411F1AA87)
    ensures MixIs(Data160(), 128, KSecret(), 119, 0x61C8864E7A143573, 0x89240F5FFB8902E1)
  {
    hide Data160, KSecret, WordAt, Mul128Fold64, MixIs, Xor64, Add64, Sub64;
    Keys();
    KeysOfMedium();
    DataWords();
    MixSteps();
    MixFolds();
    MixAt(Data160(), 144, KSecret(), 103, 0x61C8864E7A143573);
    MixAt(Data160(), 128, KSecret(), 119, 0x61C8864E7A143573);
  }

  lemma DataSteps()
    ensures Mul64(160, 0x9E3779B185EBCA87) == 0xE2AC0EF3B35E9460 && Add64(0xE2AC0EF3B35E9460, 0xFF3246AD36659AD3) == 0xE1DE55A0E9C42F33
    ensures Add64(0xE1DE55A0E9C42F33, 0xBE98DFBB9CA1EC5A) == 0xA077355C86661B8D && Add64(0xA077355C86661B8D, 0x4ACD0C658013331E) == 0xEB4441C206794EAB
    ensures Add64(0xEB4441C206794EAB, 0x25195CD9C90E077B) == 0x105D9E9BCF875626 && Add64(0x105D9E9BCF875626, 0xFD6A7C44AAE070D6) == 0x0DC81AE07A67C6FC
    ensures Add64(0x0DC81AE07A67C6FC, 0xD36928C8BCA2AB73) == 0xE13143A9370A726F && Add64(0xE13143A9370A726F, 0xB0723C712F467DBD) == 0x91A3801A6650F02C
    ensures Add64(0x91A3801A6650F02C, 0x5318801A0DFC03D8) == 0xE4BC0034744CF404 && XorShr64(0xE4BC0034744CF404, 37) == 0xE4BC003473691405
    ensures Mul64(0xE4BC003473691405, 0x165667919E3779F9) == 0x8EB4FD544EBDD5DD && XorShr64(0x8EB4FD544EBDD5DD, 32) == 0x8EB4FD54C0092889
    ensures Add64(0x14B76AC8F8335C27, 0x336EE9E490BBF64D) == 0x482654AD88EF5274 && Add64(0x482654AD88EF5274, 0x550DB9F2EC86DE7F) == 0x9D340EA0757630F3
    ensures Add64(0x8EB4FD54C0092889, 0x9D340EA0757630F3) == 0x2BE90BF5357F597C && XorShr64(0x2BE90BF5357F597C, 37) == 0x2BE90BF534201123
    ensures Mul64(0x2BE90BF534201123, 0x165667919E3779F9) == 0xF4FE4E6D23CF360B && XorShr64(0xF4FE4E6D23CF360B, 32) == 0xF4FE4E6DD7317866
    ensures Mul64(160, 0x9E3779B185EBCA87) == 0xE2AC0EF3B35E9460 && Add64(0xE2AC0EF3B35E9460, 0xFF3246AD36659AD3) == 0xE1DE55A0E9C42F33
    ensures Add64(0xDB979083E96DD4DE, 0x1F67B3B7A4A44072) == 0xFAFF443B8E121550 && Xor64(0xE1DE55A0E9C42F33, 0xFAFF443B8E121550) == 0x1B21119B67D63A63
    ensures Add64(0, 0xBE98DFBB9CA1EC5A) == 0xBE98DFBB9CA1EC5A && Add64(0xBE4BA423396CFEB8, 0x1CAD21F72C81017C) == 0xDAF8C61A65EE0034
    ensures Xor64(0xBE98DFBB9CA1EC5A, 0xDAF8C61A65EE0034) == 0x646019A1F94FEC6E && Add64(0x1B21119B67D63A63, 0x4ACD0C658013331E) == 0x65EE1E00E7E96D81
    ensures Add64(0x8E2443F7744608B8, 0x4C263A81E69035E0) == 0xDA4A7E795AD63E98 && Xor64(0x65EE1E00E7E96D81, 0xDA4A7E795AD63E98) == 0xBFA46079BD3F5319
    ensures Add64(0x646019A1F94FEC6E, 0x25195CD9C90E077B) == 0x8979767BC25DF3E9 && Add64(0x78E5C0CC4EE679CB, 0x2172FFCC7DD05A82) == 0x9A58C098CCB6D44D
    ensures Xor64(0x8979767BC25DF3E9, 0x9A58C098CCB6D44D) == 0x1321B6E30EEB27A4 && Add64(0xBFA46079BD3F5319, 0xFD6A7C44AAE070D6) == 0xBD0EDCBE681FC3EF
    ensures Add64(0x4EF90DA297486471, 0xD8ACDEA946EF1938) == 0x27A5EC4BDE377DA9 && Xor64(0xBD0EDCBE681FC3EF, 0x27A5EC4BDE377DA9) == 0x9AAB30F5B628BE46
    ensures Add64(0x1321B6E30EEB27A4, 0xD36928C8BCA2AB73) == 0xE68ADFABCB8DD317 && Add64(0xCB00C391BB52283C, 0xA32E531B8B65D088) == 0x6E2F16AD46B7F8C4
    ensures Xor64(0xE68ADFABCB8DD317, 0x6E2F16AD46B7F8C4) == 0x88A5C9068D3A2BD3 && Add64(0x9AAB30F5B628BE46, 0xB0723C712F467DBD) == 0x4B1D6D66E56F3C03
    ensures Add64(0x3159B4CD4BE0518A, 0x647378D9C97E9FC8) == 0x95CD2DA7155EF152 && Xor64(0x4B1D6D66E56F3C03, 0x95CD2DA7155EF152) == 0xDED040C1F031CD51
    ensures Add64(0x88A5C9068D3A2BD3, 0x5318801A0DFC03D8) == 0xDBBE49209B362FAB && Add64(0x3F349CE33F76FAA8, 0x1D4F0BC7C7BBDCF9) == 0x5C83A8AB0732D7A1
    ensures Xor64(0xDBBE49209B362FAB, 0x5C83A8AB0732D7A1) == 0x873DE18B9C04F80A
    ensures XorShr64(0xDED040C1F031CD51, 37) == 0xDED040C1F6C74F57 && Mul64(0xDED040C1F6C74F57, 0x165667919E3779F9) == 0xE02FA35DFA0D4A9F
    ensures XorShr64(0xE02FA35DFA0D4A9F, 32) == 0xE02FA35D1A22E9C2 && XorShr64(0x873DE18B9C04F80A, 37) == 0x873DE18B983D1706
    ensures Mul64(0x873DE18B983D1706, 0x165667919E3779F9) == 0x76A0397799973AD6 && XorShr64(0x76A0397799973AD6, 32) == 0x76A03977EF3703A1
    ensures Add64(0xE02FA35D1A22E9C2, 0x336EE9E490BBF64D) == 0x139E8D41AADEE00F && Add64(0x49DAF0B751DD0D17, 0x9E68D429265516D3) == 0xE843C4E0783223EA
    ensures Xor64(0x139E8D41AADEE00F, 0xE843C4E0783223EA) == 0xFBDD49A1D2ECC3E5 && Add64(0x76A03977EF3703A1, 0x550DB9F2EC86DE7F) == 0xCBADF36ADBBDE220
    ensures Add64(0xC3EBD33483ACC5EA, 0xEB6313FAFFA081C5) == 0xAF4EE72F834D47AF && Xor64(0xCBADF36ADBBDE220, 0xAF4EE72F834D47AF) == 0x64E3144558F0A58F
    ensures Add64(0xFBDD49A1D2ECC3E5, 0x1807093411F1AA87) == 0x13E452D5E4DE6E6C && Xor64(0x13E452D5E4DE6E6C, 0xAF4EE72F834D47AF) == 0xBCAAB5FA679329C3
    ensures Add64(0x64E3144558F0A58F, 0x89240F5FFB8902E1) == 0xEE0723A55479A870 && Xor64(0xEE0723A55479A870, 0xE843C4E0783223EA) == 0x0644E7452C4B8B9A
    ensures Sub64(0, 0x9E3779B185EBCA8D) == 0x61C8864E7A143573
    ensures Add64(0xBCAAB5FA679329C3, 0x0644E7452C4B8B9A) == 0xC2EF9D3F93DEB55D && Mul64(0xBCAAB5FA679329C3, 0x9E3779B185EBCA87) == 0xD4AC2063628FE3D5
    ensures Mul64(0x0644E7452C4B8B9A, 0x85EBCA77C2B2AE63) == 0xD723E8C33F2DA88E && Add64(0xD4AC2063628FE3D5, 0xD723E8C33F2DA88E) == 0xABD00926A1BD8C63
    ensures Sub64(160, 0x9E3779B185EBCA8D) == 0x61C8864E7A143613 && Mul64(0x61C8864E7A143613, 0xC2B2AE3D27D4EB4F) == 0x408975C8E69C20DD
    ensures Add64(0xABD00926A1BD8C63, 0x408975C8E69C20DD) == 0xEC597EEF8859AD40 && XorShr64(0xC2EF9D3F93DEB55D, 37) == 0xC2EF9D3F95C9C9B4
    ensures Mul64(0xC2EF9D3F95C9C9B4, 0x165667919E3779F9) == 0x256964707F474414 && XorShr64(0x256964707F474414, 32) == 0x256964705A2E2064
    ensures XorShr64(0xEC597EEF8859AD40, 37) == 0xEC597EEF8F3B66B7 && Mul64(0xEC597EEF8F3B66B7, 0x165667919E3779F9) == 0x925CEF8467A466FF
    ensures XorShr64(0x925CEF8467A466FF, 32) == 0x925CEF84F5F8897B && Sub64(0, 0x925CEF84F5F8897B) == 0x6DA3107B0A077685
  {
  }

  lemma FrontRounds64()
    ensures S64.MixRounds(0xE2AC0EF3B35E9460, Data160(), KSecret(), SEED, 0, 0, 8) == 0xE4BC0034744CF404
  {
    hide Data160, KSecret, MixIs, Add64, S64.MixRounds;
    MixesTo64();
    MixesTo128();
    DataSteps();
    NoRounds(0xE2AC0EF3B35E9460, Data160(), KSecret(), SEED, 0, 0);
    NextRound(0xE2AC0EF3B35E9460, Data160(), KSecret(), SEED, 0, 0, 0, 0xE2AC0EF3B35E9460, 0xFF3246AD36659AD3);
    NextRound(0xE2AC0EF3B35E9460, Data160(), KSecret(), SEED, 0, 0, 1, 0xE1DE55A0E9C42F33, 0xBE98DFBB9CA1EC5A);
    NextRound(0xE2AC0EF3B35E9460, Data160(), KSecret(), SEED, 0, 0, 2, 0xA077355C86661B8D, 0x4ACD0C658013331E);
    NextRound(0xE2AC0EF3B35E9460, Data160(), KSecret(), SEED, 0, 0, 3, 0xEB4441C206794EAB, 0x25195CD9C90E077B);
    NextRound(0xE2AC0EF3B35E9460, Data160(), KSecret(), SEED, 0, 0, 4, 0x105D9E9BCF875626, 0xFD6A7C44AAE070D6);
    NextRound(0xE2AC0EF3B35E9460, Data160(), KSecret(), SEED, 0, 0, 5, 0x0DC81AE07A67C6FC, 0xD36928C8BCA2AB73);
    NextRound(0xE2AC0EF3B35E9460, Data160(), KSecret(), SEED, 0, 0, 6, 0xE13143A9370A726F, 0xB0723C712F467DBD);
    NextRound(0xE2AC0EF3B35E9460, Data160(), KSecret(), SEED, 0, 0, 7, 0x91A3801A6650F02C, 0x5318801A0DFC03D8);
  }

  lemma BackRounds64()
    ensures S64.MixRounds(0x14B76AC8F8335C27, Data160(), KSecret(), SEED, 8, 3, 10) == 0x9D340EA0757630F3
  {
    hide Data160, KSecret, MixIs, Add64, S64.MixRounds;
    MixesTo160();
    DataSteps();
    NoRounds(0x14B76AC8F8335C27, Data160(), KSecret(), SEED, 8, 3);
    NextRound(0x14B76AC8F8335C27, Data160(), KSecret(), SEED, 8, 3, 8, 0x14B76AC8F8335C27, 0x336EE9E490BBF64D);
    NextRound(0x14B76AC8F8335C27, Data160(), KSecret(), SEED, 8, 3, 9, 0x482654AD88EF5274, 0x550DB9F2EC86DE7F);
  }

  lemma DataHash64()
    ensures S64.Short(Data160(), KSecret(), SEED) == 0xF4FE4E6DD7317866
  {
    hide Data160, KSecret, Mix16B, Mul64, Add64, XorShr64, LengthWord64, S64.MixRounds, S64.Len0, S64.Len1To3, S64.Len4To8,
         S64.Len9To16, S64.Len17To128, S128.Len0, S128.Len1To3, S128.Len4To8, S128.Len9To16, S128.Len17To128;
    Length160();
    DataSteps();
    MixesTo160();
    FrontRounds64();
    BackRounds64();
    assert Data160()[144..] == Data160()[144..160];
  }

  lemma FrontRounds128()
    ensures S128.FrontRounds(Data160(), KSecret(), SEED, 4) == Hash128(0xDED040C1F031CD51, 0x873DE18B9C04F80A)
  {
    hide Data160, KSecret, WordAt, MixIs, Mixed, Mul64, Xor64, Add64, LengthWord64, S128.MixRound, S128.FrontRounds;
    Length160();
    DataWords();
    MixesTo64();
    MixesTo128();
    DataSteps();
    FrontStep(Data160(), KSecret(), SEED, 0);
    FrontStep(Data160(), KSecret(), SEED, 1);
    FrontStep(Data160(), KSecret(), SEED, 2);
    FrontStep(Data160(), KSecret(), SEED, 3);
    RoundAt(Hash128(0xE2AC0EF3B35E9460, 0), Data160(), KSecret(), SEED, 0, 0);
    RoundAt(Hash128(0x1B21119B67D63A63, 0x646019A1F94FEC6E), Data160(), KSecret(), SEED, 1, 32);
    RoundAt(Hash128(0xBFA46079BD3F5319, 0x1321B6E30EEB27A4), Data160(), KSecret(), SEED, 2, 64);
    RoundAt(Hash128(0x9AAB30F5B628BE46, 0x88A5C9068D3A2BD3), Data160(), KSecret(), SEED, 3, 96);
    MixedIs(Hash128(0xE2AC0EF3B35E9460, 0), Data160(), 0, 16, KSecret(), 0, SEED, 0xFF3246AD36659AD3, 0xBE98DFBB9CA1EC5A);
    MixedIs(Hash128(0x1B21119B67D63A63, 0x646019A1F94FEC6E), Data160(), 32, 48, KSecret(), 32, SEED, 0x4ACD0C658013331E, 0x25195CD9C90E077B);
    MixedIs(Hash128(0xBFA46079BD3F5319, 0x1321B6E30EEB27A4), Data160(), 64, 80, KSecret(), 64, SEED, 0xFD6A7C44AAE070D6, 0xD36928C8BCA2AB73);
    MixedIs(Hash128(0x9AAB30F5B628BE46, 0x88A5C9068D3A2BD3), Data160(), 96, 112, KSecret(), 96, SEED, 0xB0723C712F467DBD, 0x5318801A0DFC03D8);
  }

  lemma BackRounds128()
    ensures S128.BackRounds(Hash128(0xE02FA35D1A22E9C2, 0x76A03977EF3703A1), Data160(), KSecret(), SEED, 5)
            == Hash128(0xFBDD49A1D2ECC3E5, 0x64E3144558F0A58F)
  {
    hide Data160, KSecret, WordAt, MixIs, Mixed, Xor64, Add64, S128.MixRound, S128.BackRounds;
    DataWords();
    MixesTo160();
    DataSteps();
    BackStep(Hash128(0xE02FA35D1A22E9C2, 0x76A03977EF3703A1), Data160(), KSecret(), SEED, 4);
    RoundAt(Hash128(0xE02FA35D1A22E9C2, 0x76A03977EF3703A1), Data160(), KSecret(), SEED, 4, 3);
    MixedIs(Hash128(0xE02FA35D1A22E9C2, 0x76A03977EF3703A1), Data160(), 128, 144, KSecret(), 3, SEED, 0x336EE9E490BBF64D, 0x550DB9F2EC86DE7F);
  }

  lemma LastRound128()
    ensures S128.Mix32B(Hash128(0xFBDD49A1D2ECC3E5, 0x64E3144558F0A58F), Data160()[144..], Data160()[128..144], KSecret()[103..135], 0x61C8864E7A143573)
            == Hash128(0xBCAAB5FA679329C3, 0x0644E7452C4B8B9A)
  {
    hide Data160, KSecret, WordAt, MixIs, Mixed, Xor64, Add64, S128.Mix32B;
    DataWords();
    LastMixes();
    DataSteps();
    Mix32At(Hash128(0xFBDD49A1D2ECC3E5, 0x64E3144558F0A58F), Data160(), 144, 128, KSecret(), 103, 0x61C8864E7A143573);
    MixedIs(Hash128(0xFBDD49A1D2ECC3E5, 0x64E3144558F0A58F), Data160(), 144, 128, KSecret(), 103, 0x61C8864E7A143573, 0x1807093411F1AA87,
        0x89240F5FFB8902E1);
    assert Data160()[144..] == Data160()[144..160];
  }

  lemma DataHash128()
    ensures S128.Short(Data160(), KSecret(), SEED) == Hash128(0x256964705A2E2064, 0x6DA3107B0A077685)
  {
    hide Data160, KSecret, Mul64, Xor64, Add64, Sub64, XorShr64, LengthWord64, S128.FrontRounds, S128.BackRounds, S128.Mix32B,
         S64.Len0, S64.Len1To3, S64.Len4To8, S64.Len9To16, S64.Len17To128, S128.Len0, S128.Len1To3, S128.Len4To8, S128.Len9To16,
         S128.Len17To128;
    Length160();
    FrontRounds128();
    DataSteps();
    BackRounds128();
    LastRound128();
  }

  /** Of 160 bytes. */
  lemma DataAnswer(k: Kernel)
    ensures Hash(S64.Width64(), k, WithSeed(SEED), Data160()) == 0xF4FE4E6DD7317866
    ensures Hash(S128.Width128(), k, WithSeed(SEED), Data160()) == Hash128(0x256964705A2E2064, 0x6DA3107B0A077685)
  {
    hide KSecret, WordAt, Hash, S64.Width64, S128.Width128, Data160, S64.Short, S128.Short;
    ShortHash(k, WithSeed(SEED), Data160());
    DataHash64();
    DataHash128();
  }
}
