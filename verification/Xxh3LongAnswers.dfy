/** Known answers of XXH3 for long inputs: within one block, with a secret made from a seed, and through the scramble after a block. */
module Xxh3LongAnswers {
  import opened Mixing
  import opened Products
  import opened Words
  import opened Xxh3Evaluation
  import opened Xxh3Kernels
  import opened Xxh3Keys
  import opened Xxh3Long
  import opened Xxh3Mix
  import opened Xxh3OneShot
  import opened Xxh3Stripes
  import S64 = Xxh3Short64
  import S128 = Xxh3Short128

  // ---- 241 zeros, one block ----

  /** The lanes after each stripe, and after the last one. */
  function ZeroLanes(i: nat): Acc {
    match i
    case 0 => INIT_ACC
    case 1 => [0x2AAFDCCD9FAF6165, 0xA333AEF0A861352B, 0x8AEDD6E4DBB7B8E9, 0x2A88FD29E48F4177,
               0xAB2EA325984AFC27, 0x1070602A61FF680F, 0x68643CBCE410F94D, 0x44953E17F8575F91]
    case 2 => [0x2FAC120CC224CC09, 0x6B6ED7985C4402C5, 0x9F206C5D220F8067, 0x4FCBD5D7BA278F3B,
               0xBB9F034F745E99BF, 0x50FFB1B82FB9F997, 0xACF97AD43E30DF2D, 0xD91FF3193A85DD8D]
    case 3 => [0xF7E73AB4760799A3, 0x7FA16D10A29BCA43, 0xC463450AF7A7CE2B, 0x603C3601963B2CD3,
               0xFC2E54DD42192B47, 0x9594EFCF89D9DF77, 0x41842FD5805F5D29, 0x31FB006C014EF3E5]
    case _ => [0xBF4EDD62DC78612B, 0xA832F1B0FDCB07A2, 0xDBD70642611D9ABE, 0xF7899252E8EC7B03,
               0x03313BAA1DFC917F, 0xDC15345084AA6D91, 0x6301A3591EBD1EA9, 0x984F4A610D412D57]
  }

  lemma KeyProducts()
    ensures HalvesTimes(0xBE4BA423396CFEB8) == 0x2AAFDCCCDCFCB328 && HalvesTimes(0x1CAD21F72C81017C) == 0x04FC353F22756AA4
    ensures HalvesTimes(0xDB979083E96DD4DE) == 0xC83B28A7B3E2CD9A && HalvesTimes(0x1F67B3B7A4A44072) == 0x143295784657C77E
    ensures HalvesTimes(0x78E5C0CC4EE679CB) == 0x2542D8ADD5984DC4 && HalvesTimes(0x2172FFCC7DD05A82) == 0x10706029DC139D98
    ensures HalvesTimes(0x8E2443F7744608B8) == 0x408F518DCDBA9188 && HalvesTimes(0x4C263A81E69035E0) == 0x44953E175A1FE5E0
    ensures HalvesTimes(0xCB00C391BB52283C) == 0x948AB501422E7DFC && HalvesTimes(0xA32E531B8B65D088) == 0x58DB0D52C6C91658
    ensures HalvesTimes(0x4EF90DA297486471) == 0x2EAB3C1288D24C82 && HalvesTimes(0xD8ACDEA946EF1938) == 0x3C09A39E5D5635F8
    ensures HalvesTimes(0x3F349CE33F76FAA8) == 0x0FAB52BF095EA2F8 && HalvesTimes(0x1D4F0BC7C7BBDCF9) == 0x16DDF431BB5E788F
    ensures HalvesTimes(0x3159B4CD4BE0518A) == 0x0EA0862E3EF05382 && HalvesTimes(0x647378D9C97E9FC8) == 0x4F10596A0E133088
    ensures HalvesTimes(0xEA647378D9C97E9F) == 0xC767A2AE6670C788 && HalvesTimes(0xC5C3EBD33483ACC5) == 0x289184A05B2F3D5F
    ensures HalvesTimes(0x17EB6313FAFFA081) == 0x1773C1376975CC93 && HalvesTimes(0xD349DAF0B751DD0D) == 0x974D5C5152B14E30
    ensures HalvesTimes(0x2B9E68D429265516) == 0x0702E6CCDBE36638 && HalvesTimes(0x8FFCA1477D58BE16) == 0x46804480FAD08E1A
    ensures HalvesTimes(0x45CE31D07AD1B8F8) == 0x217D73839E5DC180 && HalvesTimes(0xAF280416958F3ACB) == 0x665449F50BF23972
  {
  }

  lemma ZeroSteps()
    ensures Add64(0x00000000C2B2AE3D, 0x2AAFDCCCDCFCB328) == 0x2AAFDCCD9FAF6165 && Add64(0x9E3779B185EBCA87, 0x04FC353F22756AA4) == 0xA333AEF0A861352B
    ensures Add64(0xC2B2AE3D27D4EB4F, 0xC83B28A7B3E2CD9A) == 0x8AEDD6E4DBB7B8E9 && Add64(0x165667B19E3779F9, 0x143295784657C77E) == 0x2A88FD29E48F4177
    ensures Add64(0x85EBCA77C2B2AE63, 0x2542D8ADD5984DC4) == 0xAB2EA325984AFC27 && Add64(0x0000000085EBCA77, 0x10706029DC139D98) == 0x1070602A61FF680F
    ensures Add64(0x27D4EB2F165667C5, 0x408F518DCDBA9188) == 0x68643CBCE410F94D && Add64(0x000000009E3779B1, 0x44953E175A1FE5E0) == 0x44953E17F8575F91
    ensures Add64(0x2AAFDCCD9FAF6165, 0x04FC353F22756AA4) == 0x2FAC120CC224CC09 && Add64(0xA333AEF0A861352B, 0xC83B28A7B3E2CD9A) == 0x6B6ED7985C4402C5
    ensures Add64(0x8AEDD6E4DBB7B8E9, 0x143295784657C77E) == 0x9F206C5D220F8067 && Add64(0x2A88FD29E48F4177, 0x2542D8ADD5984DC4) == 0x4FCBD5D7BA278F3B
    ensures Add64(0xAB2EA325984AFC27, 0x10706029DC139D98) == 0xBB9F034F745E99BF && Add64(0x1070602A61FF680F, 0x408F518DCDBA9188) == 0x50FFB1B82FB9F997
    ensures Add64(0x68643CBCE410F94D, 0x44953E175A1FE5E0) == 0xACF97AD43E30DF2D && Add64(0x44953E17F8575F91, 0x948AB501422E7DFC) == 0xD91FF3193A85DD8D
    ensures Add64(0x2FAC120CC224CC09, 0xC83B28A7B3E2CD9A) == 0xF7E73AB4760799A3 && Add64(0x6B6ED7985C4402C5, 0x143295784657C77E) == 0x7FA16D10A29BCA43
    ensures Add64(0x9F206C5D220F8067, 0x2542D8ADD5984DC4) == 0xC463450AF7A7CE2B && Add64(0x4FCBD5D7BA278F3B, 0x10706029DC139D98) == 0x603C3601963B2CD3
    ensures Add64(0xBB9F034F745E99BF, 0x408F518DCDBA9188) == 0xFC2E54DD42192B47 && Add64(0x50FFB1B82FB9F997, 0x44953E175A1FE5E0) == 0x9594EFCF89D9DF77
    ensures Add64(0xACF97AD43E30DF2D, 0x948AB501422E7DFC) == 0x41842FD5805F5D29 && Add64(0xD91FF3193A85DD8D, 0x58DB0D52C6C91658) == 0x31FB006C014EF3E5
    ensures Add64(0xF7E73AB4760799A3, 0xC767A2AE6670C788) == 0xBF4EDD62DC78612B && Add64(0x7FA16D10A29BCA43, 0x289184A05B2F3D5F) == 0xA832F1B0FDCB07A2
    ensures Add64(0xC463450AF7A7CE2B, 0x1773C1376975CC93) == 0xDBD70642611D9ABE && Add64(0x603C3601963B2CD3, 0x974D5C5152B14E30) == 0xF7899252E8EC7B03
    ensures Add64(0xFC2E54DD42192B47, 0x0702E6CCDBE36638) == 0x03313BAA1DFC917F && Add64(0x9594EFCF89D9DF77, 0x46804480FAD08E1A) == 0xDC15345084AA6D91
    ensures Add64(0x41842FD5805F5D29, 0x217D73839E5DC180) == 0x6301A3591EBD1EA9 && Add64(0x31FB006C014EF3E5, 0x665449F50BF23972) == 0x984F4A610D412D57
  {
  }

  lemma ZeroStripe0()
    ensures ZeroLanesFrom(ZeroLanes(0), KSecret(), 0) == ZeroLanes(1)
  {
    hide KSecret, WordAt, HalvesTimes, Add64;
    Keys();
    KeyProducts();
    ZeroSteps();
  }

  lemma ZeroStripe1()
    ensures ZeroLanesFrom(ZeroLanes(1), KSecret(), 8) == ZeroLanes(2)
  {
    hide KSecret, WordAt, HalvesTimes, Add64;
    Keys();
    KeyProducts();
    ZeroSteps();
  }

  lemma ZeroStripe2()
    ensures ZeroLanesFrom(ZeroLanes(2), KSecret(), 16) == ZeroLanes(3)
  {
    hide KSecret, WordAt, HalvesTimes, Add64;
    Keys();
    KeyProducts();
    ZeroSteps();
  }

  lemma ZeroStripe3()
    ensures ZeroLanesFrom(ZeroLanes(3), KSecret(), 121) == ZeroLanes(4)
  {
    hide KSecret, WordAt, HalvesTimes, Add64;
    KeysAt121();
    KeyProducts();
    ZeroSteps();
  }

  lemma ZeroStart()
    ensures Run(LaneKernel(), KSecret(), START, Zeros(241), 0) == Progress(ZeroLanes(0), 0)
  {
    hide KSecret, Zeros, Run;
    NoStripes(KSecret(), Zeros(241));
  }

  lemma ZeroRun()
    ensures Run(LaneKernel(), KSecret(), START, Zeros(241), 3) == Progress(ZeroLanes(3), 3)
  {
    hide KSecret, Zeros, ZeroLanes, LanesFrom, ZeroLanesFrom, Run;
    ZeroStart();
    ZeroStripe0();
    ZerosAccumulate(ZeroLanes(0), 241, 0, KSecret(), 0);
    NextStripe(KSecret(), Zeros(241), 0, ZeroLanes(0), 0);
    ZeroStripe1();
    ZerosAccumulate(ZeroLanes(1), 241, 64, KSecret(), 8);
    NextStripe(KSecret(), Zeros(241), 1, ZeroLanes(1), 1);
    ZeroStripe2();
    ZerosAccumulate(ZeroLanes(2), 241, 128, KSecret(), 16);
    NextStripe(KSecret(), Zeros(241), 2, ZeroLanes(2), 2);
  }

  lemma ZeroLong()
    ensures LongAcc(LaneKernel(), KSecret(), Zeros(241)) == ZeroLanes(4)
  {
    hide KSecret, Zeros, ZeroLanes, LanesFrom, ZeroLanesFrom, LongAcc, Run;
    ZeroRun();
    ZeroStripe3();
    ZerosAccumulate(ZeroLanes(3), 241, 177, KSecret(), 121);
    LongLanes(KSecret(), Zeros(241), ZeroLanes(3), 3);
  }

  lemma LengthIs241()
    ensures Num(241) == 241
  {
  }

  lemma Length241()
    ensures LengthWord64(241) == 241
  {
    hide Num, LengthWord64;
    LengthIs241();
    LengthNum(241);
    SameNum(LengthWord64(241), 241);
  }

  lemma ZeroMergeSteps()
    ensures Xor64(0xBF4EDD62DC78612B, 0x6DD4DE1CAD21F72C) == 0xD29A037E71599607 && Xor64(0xA832F1B0FDCB07A2, 0xA44072DB979083E9) == 0x0C72836B6A5B844B
    ensures Xor64(0x1122E561A117900D, 0x0A3D6CDCA946E5CE) == 0x1B1F89BD085175C3 && Xor64(0xDBD70642611D9ABE, 0xE679CB1F67B3B7A4) == 0x3DAECD5D06AE2D1A
    ensures Xor64(0xF7899252E8EC7B03, 0xD05A8278E5C0CC4E) == 0x27D3102A0D2CB74D && Xor64(0xA588493F971926D2, 0x09987C417E6132BF) == 0xAC10357EE978146D
    ensures Xor64(0x03313BAA1DFC917F, 0x4608B82172FFCC7D) == 0x4539838B6F035D02 && Xor64(0xDC15345084AA6D91, 0x9035E08E2443F774) == 0x4C20D4DEA0E99AE5
    ensures Xor64(0xAB0F006F3AC766CA, 0x1495F3CDAAB58853) == 0xBF9AF3A29072EE99 && Xor64(0x6301A3591EBD1EA9, 0x52283C4C263A81E6) == 0x31299F1538879F4F
    ensures Xor64(0x984F4A610D412D57, 0x65D088CB00C391BB) == 0xFD9FC2AA0D82BCEC && Xor64(0x15B27D7F9F22E0D4, 0x30B4D073F9D6161A) == 0x2506AD0C66F4F6CE
    ensures Xor64(0xBF4EDD62DC78612B, 0xD9C97E9FC83159B4) == 0x6687A3FD1449389F && Xor64(0xA832F1B0FDCB07A2, 0x3483ACC5EA647378) == 0x9CB15D7517AF74DA
    ensures Xor64(0x859B688371B34366, 0x3EC1B124C664FD6B) == 0xBB5AD9A7B7D7BE0D && Xor64(0xDBD70642611D9ABE, 0xFAFFA081C5C3EBD3) == 0x2128A6C3A4DE716D
    ensures Xor64(0xF7899252E8EC7B03, 0xB751DD0D17EB6313) == 0x40D84F5FFF071810 && Xor64(0x1A449332D5844ED0, 0x08662E4598DF63DD) == 0x1222BD774D5B2D0D
    ensures Xor64(0x03313BAA1DFC917F, 0x29265516D349DAF0) == 0x2A176EBCCEB54B8F && Xor64(0xDC15345084AA6D91, 0x7D58BE162B9E68D4) == 0xA14D8A46AF340545
    ensures Xor64(0x467333815B63288B, 0x1A857C6D4DB2D26E) == 0x5CF64FEC16D1FAE5 && Xor64(0x6301A3591EBD1EA9, 0x7AD1B8F88FFCA147) == 0x19D01BA19141BFEE
    ensures Xor64(0x984F4A610D412D57, 0x958F3ACB45CE31D0) == 0x0DC070AA488F1C87 && Xor64(0x820073D7F09C3E82, 0x0162F8D8252746CB) == 0x83628B0FD5BB7849
  {
  }

  lemma ZeroMergeSums()
    ensures Mul64(241, 0x9E3779B185EBCA87) == 0xF239901F12F9A917 && Add64(0xF239901F12F9A917, 0x1B1F89BD085175C3) == 0x0D5919DC1B4B1EDA
    ensures Add64(0x0D5919DC1B4B1EDA, 0xAC10357EE978146D) == 0xB9694F5B04C33347 && Add64(0xB9694F5B04C33347, 0xBF9AF3A29072EE99) == 0x790442FD953621E0
    ensures Add64(0x790442FD953621E0, 0x2506AD0C66F4F6CE) == 0x9E0AF009FC2B18AE && XorShr64(0x9E0AF009FC2B18AE, 37) == 0x9E0AF009F8DB4F2E
    ensures Mul64(0x9E0AF009F8DB4F2E, 0x165667919E3779F9) == 0x5C5B5D5D1C9EC1BE && XorShr64(0x5C5B5D5D1C9EC1BE, 32) == 0x5C5B5D5D40C59CE3
    ensures Mul64(241, 0xC2B2AE3D27D4EB4F) == 0x4A3607927F71855F && S128.Complement(0x4A3607927F71855F) == 0xB5C9F86D808E7AA0
    ensures Add64(0xB5C9F86D808E7AA0, 0xBB5AD9A7B7D7BE0D) == 0x7124D215386638AD && Add64(0x7124D215386638AD, 0x1222BD774D5B2D0D) == 0x83478F8C85C165BA
    ensures Add64(0x83478F8C85C165BA, 0x5CF64FEC16D1FAE5) == 0xE03DDF789C93609F && Add64(0xE03DDF789C93609F, 0x83628B0FD5BB7849) == 0x63A06A88724ED8E8
    ensures XorShr64(0x63A06A88724ED8E8, 37) == 0x63A06A887153DBBC && Mul64(0x63A06A887153DBBC, 0x165667919E3779F9) == 0xB9B450651AD095DC
    ensures XorShr64(0xB9B450651AD095DC, 32) == 0xB9B45065A364C5B9
  {
  }

  lemma ZeroLowKeyed()
    ensures FoldAt(ZeroLanes(4), KSecret(), 11, 0) == 0x1B1F89BD085175C3 && FoldAt(ZeroLanes(4), KSecret(), 11, 1) == 0xAC10357EE978146D
    ensures FoldAt(ZeroLanes(4), KSecret(), 11, 2) == 0xBF9AF3A29072EE99 && FoldAt(ZeroLanes(4), KSecret(), 11, 3) == 0x2506AD0C66F4F6CE
  {
    hide KSecret, WordAt, Xor64, Mul128Fold64;
    KeysAt11();
    ZeroMergeSteps();
    ZeroMergeFolds();
  }

  lemma ZeroLowMerged()
    ensures MergedFrom(ZeroLanes(4), KSecret(), 11, 0xF239901F12F9A917) == 0x5C5B5D5D40C59CE3
  {
    hide ZeroLanes, KSecret, FoldAt, Add64, Mul64, XorShr64;
    ZeroLowKeyed();
    ZeroMergeSums();
  }

  lemma ZeroMergeFolds()
    ensures Mul128Fold64(0xD29A037E71599607, 0x0C72836B6A5B844B) == 0x1B1F89BD085175C3
    ensures Mul128Fold64(0x3DAECD5D06AE2D1A, 0x27D3102A0D2CB74D) == 0xAC10357EE978146D
    ensures Mul128Fold64(0x4539838B6F035D02, 0x4C20D4DEA0E99AE5) == 0xBF9AF3A29072EE99
    ensures Mul128Fold64(0x31299F1538879F4F, 0xFD9FC2AA0D82BCEC) == 0x2506AD0C66F4F6CE
    ensures Mul128Fold64(0x6687A3FD1449389F, 0x9CB15D7517AF74DA) == 0xBB5AD9A7B7D7BE0D
    ensures Mul128Fold64(0x2128A6C3A4DE716D, 0x40D84F5FFF071810) == 0x1222BD774D5B2D0D
    ensures Mul128Fold64(0x2A176EBCCEB54B8F, 0xA14D8A46AF340545) == 0x5CF64FEC16D1FAE5
    ensures Mul128Fold64(0x19D01BA19141BFEE, 0x0DC070AA488F1C87) == 0x83628B0FD5BB7849
  {
    hide Mul128Fold64, Xor64;
    ZeroMergeSteps();
    FoldIs(0xD29A037E71599607, 0x0C72836B6A5B844B, 0x1122E561A117900D, 0x0A3D6CDCA946E5CE);
    FoldIs(0x3DAECD5D06AE2D1A, 0x27D3102A0D2CB74D, 0xA588493F971926D2, 0x09987C417E6132BF);
    FoldIs(0x4539838B6F035D02, 0x4C20D4DEA0E99AE5, 0xAB0F006F3AC766CA, 0x1495F3CDAAB58853);
    FoldIs(0x31299F1538879F4F, 0xFD9FC2AA0D82BCEC, 0x15B27D7F9F22E0D4, 0x30B4D073F9D6161A);
    FoldIs(0x6687A3FD1449389F, 0x9CB15D7517AF74DA, 0x859B688371B34366, 0x3EC1B124C664FD6B);
    FoldIs(0x2128A6C3A4DE716D, 0x40D84F5FFF071810, 0x1A449332D5844ED0, 0x08662E4598DF63DD);
    FoldIs(0x2A176EBCCEB54B8F, 0xA14D8A46AF340545, 0x467333815B63288B, 0x1A857C6D4DB2D26E);
    FoldIs(0x19D01BA19141BFEE, 0x0DC070AA488F1C87, 0x820073D7F09C3E82, 0x0162F8D8252746CB);
  }

  lemma ZeroHighKeyed()
    ensures FoldAt(ZeroLanes(4), KSecret(), 117, 0) == 0xBB5AD9A7B7D7BE0D && FoldAt(ZeroLanes(4), KSecret(), 117, 1) == 0x1222BD774D5B2D0D
    ensures FoldAt(ZeroLanes(4), KSecret(), 117, 2) == 0x5CF64FEC16D1FAE5 && FoldAt(ZeroLanes(4), KSecret(), 117, 3) == 0x83628B0FD5BB7849
  {
    hide KSecret, WordAt, Xor64, Mul128Fold64;
    KeysAt117();
    ZeroMergeSteps();
    ZeroMergeFolds();
  }

  lemma ZeroHighMerged()
    ensures MergedFrom(ZeroLanes(4), KSecret(), 117, 0xB5C9F86D808E7AA0) == 0xB9B45065A364C5B9
  {
    hide ZeroLanes, KSecret, FoldAt, Add64, Mul64, XorShr64;
    ZeroHighKeyed();
    ZeroMergeSums();
  }

  /** Of 241 zeros. */
  lemma ZeroAnswer()
    ensures Hash(S64.Width64(), LaneKernel(), Default, Zeros(241)) == 0x5C5B5D5D40C59CE3
    ensures Hash(S128.Width128(), LaneKernel(), Default, Zeros(241)) == Hash128(0x5C5B5D5D40C59CE3, 0xB9B45065A364C5B9)
  {
    hide ZeroLanes, KSecret, Zeros, LongAcc, Hash, MergedFrom, Mul64, LengthWord64, S128.Complement, S64.Width64, S128.Width128;
    ZeroLong();
    LongHash64(LaneKernel(), Default, Zeros(241), ZeroLanes(4));
    LongHash128(LaneKernel(), Default, Zeros(241), ZeroLanes(4));
    Length241();
    ZeroMergeSums();
    ZeroLowMerged();
    ZeroHighMerged();
  }

  // ---- 256 bytes with a seed ----

  /** The default secret and its first 64 bytes again, as an input. */
  function Data256(): (s: Bytes)
    ensures |s| == 256
  {
    KSecret() + KSecret()[..64]
  }

  lemma FirstDataWords()
    ensures WordAt(Data256(), 0) == 0xBE4BA423396CFEB8 && WordAt(Data256(), 8) == 0x1CAD21F72C81017C && WordAt(Data256(), 16) == 0xDB979083E96DD4DE
    ensures WordAt(Data256(), 24) == 0x1F67B3B7A4A44072 && WordAt(Data256(), 32) == 0x78E5C0CC4EE679CB && WordAt(Data256(), 40) == 0x2172FFCC7DD05A82
    ensures WordAt(Data256(), 48) == 0x8E2443F7744608B8 && WordAt(Data256(), 56) == 0x4C263A81E69035E0 && WordAt(Data256(), 64) == 0xCB00C391BB52283C
    ensures WordAt(Data256(), 72) == 0xA32E531B8B65D088 && WordAt(Data256(), 80) == 0x4EF90DA297486471 && WordAt(Data256(), 88) == 0xD8ACDEA946EF1938
    ensures WordAt(Data256(), 96) == 0x3F349CE33F76FAA8 && WordAt(Data256(), 104) == 0x1D4F0BC7C7BBDCF9
    ensures WordAt(Data256(), 112) == 0x3159B4CD4BE0518A
    ensures WordAt(Data256(), 120) == 0x647378D9C97E9FC8 && WordAt(Data256(), 128) == 0xC3EBD33483ACC5EA
    ensures WordAt(Data256(), 136) == 0xEB6313FAFFA081C5
    ensures WordAt(Data256(), 144) == 0x49DAF0B751DD0D17 && WordAt(Data256(), 152) == 0x9E68D429265516D3
    ensures WordAt(Data256(), 160) == 0xFCA1477D58BE162B
    ensures WordAt(Data256(), 168) == 0xCE31D07AD1B8F88F && WordAt(Data256(), 176) == 0x280416958F3ACB45
    ensures WordAt(Data256(), 184) == 0x7E404BBBCAFBD7AF
  {
    hide KSecret, WordAt;
    Keys();
    WordOfFirst(KSecret(), KSecret()[..64], 0);
    WordOfFirst(KSecret(), KSecret()[..64], 8);
    WordOfFirst(KSecret(), KSecret()[..64], 16);
    WordOfFirst(KSecret(), KSecret()[..64], 24);
    WordOfFirst(KSecret(), KSecret()[..64], 32);
    WordOfFirst(KSecret(), KSecret()[..64], 40);
    WordOfFirst(KSecret(), KSecret()[..64], 48);
    WordOfFirst(KSecret(), KSecret()[..64], 56);
    WordOfFirst(KSecret(), KSecret()[..64], 64);
    WordOfFirst(KSecret(), KSecret()[..64], 72);
    WordOfFirst(KSecret(), KSecret()[..64], 80);
    WordOfFirst(KSecret(), KSecret()[..64], 88);
    WordOfFirst(KSecret(), KSecret()[..64], 96);
    WordOfFirst(KSecret(), KSecret()[..64], 104);
    WordOfFirst(KSecret(), KSecret()[..64], 112);
    WordOfFirst(KSecret(), KSecret()[..64], 120);
    WordOfFirst(KSecret(), KSecret()[..64], 128);
    WordOfFirst(KSecret(), KSecret()[..64], 136);
    WordOfFirst(KSecret(), KSecret()[..64], 144);
    WordOfFirst(KSecret(), KSecret()[..64], 152);
    WordOfFirst(KSecret(), KSecret()[..64], 160);
    WordOfFirst(KSecret(), KSecret()[..64], 168);
    WordOfFirst(KSecret(), KSecret()[..64], 176);
    WordOfFirst(KSecret(), KSecret()[..64], 184);
  }

  lemma LastDataWords()
    ensures WordAt(Data256(), 192) == 0xBE4BA423396CFEB8 && WordAt(Data256(), 200) == 0x1CAD21F72C81017C
    ensures WordAt(Data256(), 208) == 0xDB979083E96DD4DE
    ensures WordAt(Data256(), 216) == 0x1F67B3B7A4A44072 && WordAt(Data256(), 224) == 0x78E5C0CC4EE679CB
    ensures WordAt(Data256(), 232) == 0x2172FFCC7DD05A82
    ensures WordAt(Data256(), 240) == 0x8E2443F7744608B8 && WordAt(Data256(), 248) == 0x4C263A81E69035E0
  {
    hide KSecret, WordAt;
    Keys();
    WordOfSecond(KSecret(), KSecret()[..64], 0);
    WordOfPrefix(KSecret(), 64, 0);
    WordOfSecond(KSecret(), KSecret()[..64], 8);
    WordOfPrefix(KSecret(), 64, 8);
    WordOfSecond(KSecret(), KSecret()[..64], 16);
    WordOfPrefix(KSecret(), 64, 16);
    WordOfSecond(KSecret(), KSecret()[..64], 24);
    WordOfPrefix(KSecret(), 64, 24);
    WordOfSecond(KSecret(), KSecret()[..64], 32);
    WordOfPrefix(KSecret(), 64, 32);
    WordOfSecond(KSecret(), KSecret()[..64], 40);
    WordOfPrefix(KSecret(), 64, 40);
    WordOfSecond(KSecret(), KSecret()[..64], 48);
    WordOfPrefix(KSecret(), 64, 48);
    WordOfSecond(KSecret(), KSecret()[..64], 56);
    WordOfPrefix(KSecret(), 64, 56);
  }

  /** The lanes after each stripe, and after the last one. */
  function DataLanes(i: nat): Acc {
    match i
    case 0 => INIT_ACC
    case 1 => [0x939075AE3FB389D4, 0x91D3A66EBD2D1875, 0x3735ECF23B69E06F, 0x650B04F8B6252B3E,
               0xEAD16A94462B2988, 0xD082DAB982D0F4BC, 0xCE6A39ED04294688, 0x0481A756FC62470C]
    case 2 => [0x4BDA3A20F3501218, 0x1FF8AE8BF79E867B, 0x7FD8554AED1F0877, 0x2AA950413EC8632F,
               0x9B77DA4330B99FF6, 0x1B83DF43CF0469E8, 0x4D5A4808EC2BE4E5, 0x3CEED97A697E7030]
    case 3 => [0xE389AD3B4DC1475E, 0x4161F6D77554BBE5, 0x4F849EA81FC54DA0, 0x8C899F3B2F671ED8,
               0xEE5DDAD5D84B490B, 0x5D3D875B6E9E702B, 0x001AD65A30AC5B9C, 0xC86ACB98FB61DA09]
    case _ => [0x0DBE8D2E00642986, 0x1CCC973D57920201, 0xBEDF348C793DAB53, 0xAFA8100EF2ACAF27,
               0x3AF8D8C0E37B69A7, 0xE1C9A5A6332B33F0, 0x903AAC8B56213AD2, 0x9C839309FAF1A286]
  }

  lemma DataSteps()
    ensures Add64(0x00000000C2B2AE3D, 0x1CAD21F72C81017C) == 0x1CAD21F7EF33AFB9 && Xor64(0xBE4BA423396CFEB8, 0x5C831DD4BF58C945) == 0xE2C8B9F7863437FD
    ensures HalvesTimes(0xE2C8B9F7863437FD) == 0x76E353B6507FDA1B && Add64(0x1CAD21F7EF33AFB9, 0x76E353B6507FDA1B) == 0x939075AE3FB389D4
    ensures Add64(0x9E3779B185EBCA87, 0xBE4BA423396CFEB8) == 0x5C831DD4BF58C93F && Xor64(0x1CAD21F72C81017C, 0x7E75A845A69536EF) == 0x62D889B28A143793
    ensures HalvesTimes(0x62D889B28A143793) == 0x35508899FDD44F36 && Add64(0x5C831DD4BF58C93F, 0x35508899FDD44F36) == 0x91D3A66EBD2D1875
    ensures Add64(0xC2B2AE3D27D4EB4F, 0x1F67B3B7A4A44072) == 0xE21A61F4CC792BC1 && Xor64(0xDB979083E96DD4DE, 0x79CF0A356F599F6B) == 0xA2589AB686344BB5
    ensures HalvesTimes(0xA2589AB686344BB5) == 0x551B8AFD6EF0B4AE && Add64(0xE21A61F4CC792BC1, 0x551B8AFD6EF0B4AE) == 0x3735ECF23B69E06F
    ensures Add64(0x165667B19E3779F9, 0xDB979083E96DD4DE) == 0xF1EDF83587A54ED7 && Xor64(0x1F67B3B7A4A44072, 0x81303A061EB875E5) == 0x9E5789B1BA1C3597
    ensures HalvesTimes(0x9E5789B1BA1C3597) == 0x731D0CC32E7FDC67 && Add64(0xF1EDF83587A54ED7, 0x731D0CC32E7FDC67) == 0x650B04F8B6252B3E
    ensures Add64(0x85EBCA77C2B2AE63, 0x2172FFCC7DD05A82) == 0xA75ECA44408308E5 && Xor64(0x78E5C0CC4EE679CB, 0x171D3A7DD4D24458) == 0x6FF8FAB19A343D93
    ensures HalvesTimes(0x6FF8FAB19A343D93) == 0x4372A05005A820A3 && Add64(0xA75ECA44408308E5, 0x4372A05005A820A3) == 0xEAD16A94462B2988
    ensures Add64(0x0000000085EBCA77, 0x78E5C0CC4EE679CB) == 0x78E5C0CCD4D24442 && Xor64(0x2172FFCC7DD05A82, 0x833B861AF7E48FF5) == 0xA24979D68A34D577
    ensures HalvesTimes(0xA24979D68A34D577) == 0x579D19ECADFEB07A && Add64(0x78E5C0CCD4D24442, 0x579D19ECADFEB07A) == 0xD082DAB982D0F4BC
    ensures Add64(0x27D4EB2F165667C5, 0x4C263A81E69035E0) == 0x73FB25B0FCE69DA5 && Xor64(0x8E2443F7744608B8, 0x2C5BBDA8FA31D345) == 0xA27FFE5F8E77DBFD
    ensures HalvesTimes(0xA27FFE5F8E77DBFD) == 0x5A6F143C0742A8E3 && Add64(0x73FB25B0FCE69DA5, 0x5A6F143C0742A8E3) == 0xCE6A39ED04294688
    ensures Add64(0x000000009E3779B1, 0x8E2443F7744608B8) == 0x8E2443F8127D8269 && Xor64(0x4C263A81E69035E0, 0xADEEC0D060A46B53) == 0xE1C8FA5186345EB3
    ensures HalvesTimes(0xE1C8FA5186345EB3) == 0x765D635EE9E4C4A3 && Add64(0x8E2443F8127D8269, 0x765D635EE9E4C4A3) == 0x0481A756FC62470C
    ensures Add64(0x939075AE3FB389D4, 0xA32E531B8B65D088) == 0x36BEC8C9CB195A5C && Xor64(0xCB00C391BB52283C, 0x7E75A845A69536EF) == 0xB5756BD41DC71ED3
    ensures HalvesTimes(0xB5756BD41DC71ED3) == 0x151B71572836B7BC && Add64(0x36BEC8C9CB195A5C, 0x151B71572836B7BC) == 0x4BDA3A20F3501218
    ensures Add64(0x91D3A66EBD2D1875, 0xCB00C391BB52283C) == 0x5CD46A00787F40B1 && Xor64(0xA32E531B8B65D088, 0x79CF0A356F599F6B) == 0xDAE1592EE43C4FE3
    ensures HalvesTimes(0xDAE1592EE43C4FE3) == 0xC324448B7F1F45CA && Add64(0x5CD46A00787F40B1, 0xC324448B7F1F45CA) == 0x1FF8AE8BF79E867B
    ensures Add64(0x3735ECF23B69E06F, 0xD8ACDEA946EF1938) == 0x0FE2CB9B8258F9A7 && Xor64(0x4EF90DA297486471, 0x81303A061EB875E5) == 0xCFC937A489F01194
    ensures HalvesTimes(0xCFC937A489F01194) == 0x6FF589AF6AC60ED0 && Add64(0x0FE2CB9B8258F9A7, 0x6FF589AF6AC60ED0) == 0x7FD8554AED1F0877
    ensures Add64(0x650B04F8B6252B3E, 0x4EF90DA297486471) == 0xB404129B4D6D8FAF && Xor64(0xD8ACDEA946EF1938, 0x171D3A7DD4D24458) == 0xCFB1E4D4923D5D60
    ensures HalvesTimes(0xCFB1E4D4923D5D60) == 0x76A53DA5F15AD380 && Add64(0xB404129B4D6D8FAF, 0x76A53DA5F15AD380) == 0x2AA950413EC8632F
    ensures Add64(0xEAD16A94462B2988, 0x1D4F0BC7C7BBDCF9) == 0x0820765C0DE70681 && Xor64(0x3F349CE33F76FAA8, 0x833B861AF7E48FF5) == 0xBC0F1AF9C892755D
    ensures HalvesTimes(0xBC0F1AF9C892755D) == 0x935763E722D29975 && Add64(0x0820765C0DE70681, 0x935763E722D29975) == 0x9B77DA4330B99FF6
    ensures Add64(0xD082DAB982D0F4BC, 0x3F349CE33F76FAA8) == 0x0FB7779CC247EF64 && Xor64(0x1D4F0BC7C7BBDCF9, 0x2C5BBDA8FA31D345) == 0x3114B66F3D8A0FBC
    ensures HalvesTimes(0x3114B66F3D8A0FBC) == 0x0BCC67A70CBC7A84 && Add64(0x0FB7779CC247EF64, 0x0BCC67A70CBC7A84) == 0x1B83DF43CF0469E8
    ensures Add64(0xCE6A39ED04294688, 0x647378D9C97E9FC8) == 0x32DDB2C6CDA7E650 && Xor64(0x3159B4CD4BE0518A, 0xADEEC0D060A46B53) == 0x9CB7741D2B443AD9
    ensures HalvesTimes(0x9CB7741D2B443AD9) == 0x1A7C95421E83FE95 && Add64(0x32DDB2C6CDA7E650, 0x1A7C95421E83FE95) == 0x4D5A4808EC2BE4E5
    ensures Add64(0x0481A756FC62470C, 0x3159B4CD4BE0518A) == 0x35DB5C2448429896 && Xor64(0x647378D9C97E9FC8, 0x69383D43413DF2C9) == 0x0D4B459A88436D01
    ensures HalvesTimes(0x0D4B459A88436D01) == 0x07137D56213BD79A && Add64(0x35DB5C2448429896, 0x07137D56213BD79A) == 0x3CEED97A697E7030
    ensures Add64(0x4BDA3A20F3501218, 0xEB6313FAFFA081C5) == 0x373D4E1BF2F093DD && Xor64(0xC3EBD33483ACC5EA, 0x79CF0A356F599F6B) == 0xBA24D901ECF55A81
    ensures HalvesTimes(0xBA24D901ECF55A81) == 0xAC4C5F1F5AD0B381 && Add64(0x373D4E1BF2F093DD, 0xAC4C5F1F5AD0B381) == 0xE389AD3B4DC1475E
    ensures Add64(0x1FF8AE8BF79E867B, 0xC3EBD33483ACC5EA) == 0xE3E481C07B4B4C65 && Xor64(0xEB6313FAFFA081C5, 0x81303A061EB875E5) == 0x6A5329FCE118F420
    ensures HalvesTimes(0x6A5329FCE118F420) == 0x5D7D7516FA096F80 && Add64(0xE3E481C07B4B4C65, 0x5D7D7516FA096F80) == 0x4161F6D77554BBE5
    ensures Add64(0x7FD8554AED1F0877, 0x9E68D429265516D3) == 0x1E41297413741F4A && Xor64(0x49DAF0B751DD0D17, 0x171D3A7DD4D24458) == 0x5EC7CACA850F494F
    ensures HalvesTimes(0x5EC7CACA850F494F) == 0x314375340C512E56 && Add64(0x1E41297413741F4A, 0x314375340C512E56) == 0x4F849EA81FC54DA0
    ensures Add64(0x2AA950413EC8632F, 0x49DAF0B751DD0D17) == 0x748440F890A57046 && Xor64(0x9E68D429265516D3, 0x833B861AF7E48FF5) == 0x1D535233D1B19926
    ensures HalvesTimes(0x1D535233D1B19926) == 0x18055E429EC1AE92 && Add64(0x748440F890A57046, 0x18055E429EC1AE92) == 0x8C899F3B2F671ED8
    ensures Add64(0x9B77DA4330B99FF6, 0xCE31D07AD1B8F88F) == 0x69A9AABE02729885 && Xor64(0xFCA1477D58BE162B, 0x2C5BBDA8FA31D345) == 0xD0FAFAD5A28FC56E
    ensures HalvesTimes(0xD0FAFAD5A28FC56E) == 0x84B43017D5D8B086 && Add64(0x69A9AABE02729885, 0x84B43017D5D8B086) == 0xEE5DDAD5D84B490B
    ensures Add64(0x1B83DF43CF0469E8, 0xFCA1477D58BE162B) == 0x182526C127C28013 && Xor64(0xCE31D07AD1B8F88F, 0xADEEC0D060A46B53) == 0x63DF10AAB11C93DC
    ensures HalvesTimes(0x63DF10AAB11C93DC) == 0x4518609A46DBF018 && Add64(0x182526C127C28013, 0x4518609A46DBF018) == 0x5D3D875B6E9E702B
    ensures Add64(0x4D5A4808EC2BE4E5, 0x7E404BBBCAFBD7AF) == 0xCB9A93C4B727BC94 && Xor64(0x280416958F3ACB45, 0x69383D43413DF2C9) == 0x413C2BD6CE07398C
    ensures HalvesTimes(0x413C2BD6CE07398C) == 0x3480429579849F08 && Add64(0xCB9A93C4B727BC94, 0x3480429579849F08) == 0x001AD65A30AC5B9C
    ensures Add64(0x3CEED97A697E7030, 0x280416958F3ACB45) == 0x64F2F00FF8B93B75 && Xor64(0x7E404BBBCAFBD7AF, 0x04F6D96A057A05FB) == 0x7AB692D1CF81D254
    ensures HalvesTimes(0x7AB692D1CF81D254) == 0x6377DB8902A89E94 && Add64(0x64F2F00FF8B93B75, 0x6377DB8902A89E94) == 0xC86ACB98FB61DA09
    ensures Add64(0xE389AD3B4DC1475E, 0x1CAD21F72C81017C) == 0x0036CF327A4248DA && Xor64(0xBE4BA423396CFEB8, 0x77C63BFF284392D5) == 0xC98D9FDC112F6C6D
    ensures HalvesTimes(0xC98D9FDC112F6C6D) == 0x0D87BDFB8621E0AC && Add64(0x0036CF327A4248DA, 0x0D87BDFB8621E0AC) == 0x0DBE8D2E00642986
    ensures Add64(0x4161F6D77554BBE5, 0xBE4BA423396CFEB8) == 0xFFAD9AFAAEC1BA9D && Xor64(0x1CAD21F72C81017C, 0x3862234CE6099890) == 0x24CF02BBCA8899EC
    ensures HalvesTimes(0x24CF02BBCA8899EC) == 0x1D1EFC42A8D04764 && Add64(0xFFAD9AFAAEC1BA9D, 0x1D1EFC42A8D04764) == 0x1CCC973D57920201
    ensures Add64(0x4F849EA81FC54DA0, 0x1F67B3B7A4A44072) == 0x6EEC525FC4698E12 && Xor64(0xDB979083E96DD4DE, 0xA44D2B9A4979B4B7) == 0x7FDABB19A0146069
    ensures HalvesTimes(0x7FDABB19A0146069) == 0x4FF2E22CB4D41D41 && Add64(0x6EEC525FC4698E12, 0x4FF2E22CB4D41D41) == 0xBEDF348C793DAB53
    ensures Add64(0x8C899F3B2F671ED8, 0xDB979083E96DD4DE) == 0x68212FBF18D4F3B6 && Xor64(0x1F67B3B7A4A44072, 0x46E8126A68D7C8D7) == 0x598FA1DDCC7388A5
    ensures HalvesTimes(0x598FA1DDCC7388A5) == 0x4786E04FD9D7BB71 && Add64(0x68212FBF18D4F3B6, 0x4786E04FD9D7BB71) == 0xAFA8100EF2ACAF27
    ensures Add64(0xEE5DDAD5D84B490B, 0x2172FFCC7DD05A82) == 0x0FD0DAA2561BA38D && Xor64(0x78E5C0CC4EE679CB, 0xB800315A77A0694C) == 0xC0E5F19639461087
    ensures HalvesTimes(0xC0E5F19639461087) == 0x2B27FE1E8D5FC61A && Add64(0x0FD0DAA2561BA38D, 0x2B27FE1E8D5FC61A) == 0x3AF8D8C0E37B69A7
    ensures Add64(0x5D3D875B6E9E702B, 0x78E5C0CC4EE679CB) == 0xD6234827BD84E9F6 && Xor64(0x2172FFCC7DD05A82, 0x029AD8C12EDEA9E0) == 0x23E8270D530EF362
    ensures HalvesTimes(0x23E8270D530EF362) == 0x0BA65D7E75A649FA && Add64(0xD6234827BD84E9F6, 0x0BA65D7E75A649FA) == 0xE1C9A5A6332B33F0
    ensures Add64(0x001AD65A30AC5B9C, 0x4C263A81E69035E0) == 0x4C4110DC173C917C && Xor64(0x8E2443F7744608B8, 0xD22FFA56C94BCD2E) == 0x5C0BB9A1BD0DC596
    ensures HalvesTimes(0x5C0BB9A1BD0DC596) == 0x43F99BAF3EE4A956 && Add64(0x4C4110DC173C917C, 0x43F99BAF3EE4A956) == 0x903AAC8B56213AD2
    ensures Add64(0xC86ACB98FB61DA09, 0x8E2443F7744608B8) == 0x568F0F906FA7E2C1 && Xor64(0x4C263A81E69035E0, 0x22C63B9047152695) == 0x6EE00111A1851375
    ensures HalvesTimes(0x6EE00111A1851375) == 0x45F483798B49BFC5 && Add64(0x568F0F906FA7E2C1, 0x45F483798B49BFC5) == 0x9C839309FAF1A286
  {
  }

  lemma DataStripe0()
    ensures LanesFrom(DataLanes(0), Data256(), 0, SecretFromSeed(SEED), 0) == DataLanes(1)
  {
    hide Data256, SecretFromSeed, WordAt, HalvesTimes, Xor64, Add64;
    FirstDataWords();
    SeededKeys();
    DataSteps();
  }

  lemma DataStripe1()
    ensures LanesFrom(DataLanes(1), Data256(), 64, SecretFromSeed(SEED), 8) == DataLanes(2)
  {
    hide Data256, SecretFromSeed, WordAt, HalvesTimes, Xor64, Add64;
    FirstDataWords();
    SeededKeys();
    DataSteps();
  }

  lemma DataStripe2()
    ensures LanesFrom(DataLanes(2), Data256(), 128, SecretFromSeed(SEED), 16) == DataLanes(3)
  {
    hide Data256, SecretFromSeed, WordAt, HalvesTimes, Xor64, Add64;
    FirstDataWords();
    SeededKeys();
    DataSteps();
  }

  lemma DataStripe3()
    ensures LanesFrom(DataLanes(3), Data256(), 192, SecretFromSeed(SEED), 121) == DataLanes(4)
  {
    hide Data256, SecretFromSeed, WordAt, HalvesTimes, Xor64, Add64;
    LastDataWords();
    SeededAt121();
    DataSteps();
  }

  lemma DataStart()
    ensures Run(LaneKernel(), SecretFromSeed(SEED), START, Data256(), 0) == Progress(DataLanes(0), 0)
  {
    hide SecretFromSeed, Data256, Run;
    NoStripes(SecretFromSeed(SEED), Data256());
  }

  lemma DataRun()
    ensures Run(LaneKernel(), SecretFromSeed(SEED), START, Data256(), 3) == Progress(DataLanes(3), 3)
  {
    hide SecretFromSeed, Data256, DataLanes, LanesFrom, Run;
    DataStart();
    DataStripe0();
    NextStripe(SecretFromSeed(SEED), Data256(), 0, DataLanes(0), 0);
    DataStripe1();
    NextStripe(SecretFromSeed(SEED), Data256(), 1, DataLanes(1), 1);
    DataStripe2();
    NextStripe(SecretFromSeed(SEED), Data256(), 2, DataLanes(2), 2);
  }

  lemma DataLong()
    ensures LongAcc(LaneKernel(), SecretFromSeed(SEED), Data256()) == DataLanes(4)
  {
    hide SecretFromSeed, Data256, DataLanes, LanesFrom, LongAcc, Run;
    DataRun();
    DataStripe3();
    LongLanes(SecretFromSeed(SEED), Data256(), DataLanes(3), 3);
  }

  lemma LengthIs256()
    ensures Num(256) == 256
  {
  }

  lemma Length256()
    ensures LengthWord64(256) == 256
  {
    hide Num, LengthWord64;
    LengthIs256();
    LengthNum(256);
    SameNum(LengthWord64(256), 256);
  }

  lemma DataMergeSteps()
    ensures Xor64(0x0DBE8D2E00642986, 0x599F6B7E75A845A6) == 0x5421E65075CC6C20 && Xor64(0x1CCC973D57920201, 0xB875E579CF0A356F) == 0xA4B972449898376E
    ensures Xor64(0xEA5689F4BC1155C0, 0x3622A9989F533EEA) == 0xDC74206C23426B2A && Xor64(0xBEDF348C793DAB53, 0xD2445881303A061E) == 0x6C9B6C0D4907AD4D
    ensures Xor64(0xAFA8100EF2ACAF27, 0xE48FF5171D3A7DD4) == 0x4B27E519EF96D2F3 && Xor64(0x42A239540C90AA17, 0x1FE2758762E5E601) == 0x5D404CD36E754C16
    ensures Xor64(0x3AF8D8C0E37B69A7, 0x31D345833B861AF7) == 0x0B2B9D43D8FD7350 && Xor64(0xE1C9A5A6332B33F0, 0xA46B532C5BBDA8FA) == 0x45A2F68A68969B0A
    ensures Xor64(0x9BE35D81FF97F120, 0x0309DDBEC19DE3C3) == 0x98EA803F3E0A12E3 && Xor64(0x903AAC8B56213AD2, 0x3DF2C9ADEEC0D060) == 0xADC86526B8E1EAB2
    ensures Xor64(0x9C839309FAF1A286, 0x7A05FB69383D4341) == 0xE6866860C2CCE1C7 && Xor64(0x0BE0843A30BBE25E, 0x9C7D48A0D4DA5A5A) == 0x979DCC9AE461B804
    ensures Xor64(0x0DBE8D2E00642986, 0x284392D53BCF912E) == 0x25FD1FFB3BABB8A8 && Xor64(0x1CCC973D57920201, 0xE609989077C63BFF) == 0xFAC50FAD205439FE
    ensures Xor64(0x7F4F5884079E9EB0, 0x25366F587A551668) == 0x5A7937DC7DCB88D8 && Xor64(0xBEDF348C793DAB53, 0x4979B4B73862234C) == 0xF7A6803B415F881F
    ensures Xor64(0xAFA8100EF2ACAF27, 0x68D7C8D7A44D2B9A) == 0xC77FD8D956E184BD && Xor64(0xF14B506C92F67AE3, 0xC0FE1B0E69977B6A) == 0x31B54B62FB610189
    ensures Xor64(0x3AF8D8C0E37B69A7, 0x77A0694C46E8126A) == 0x4D58B18CA5937BCD && Xor64(0xE1C9A5A6332B33F0, 0x2EDEA9E0B800315A) == 0xCF170C468B2B02AA
    ensures Xor64(0x515C5ABD3556D022, 0x3E91AE3E26246CAE) == 0x6FCDF4831372BC8C && Xor64(0x903AAC8B56213AD2, 0xC94BCD2E029AD8C1) == 0x597161A554BBE213
    ensures Xor64(0x9C839309FAF1A286, 0x47152695D22FFA56) == 0xDB96B59C28DE58D0 && Xor64(0x59C4344A72D83770, 0x4CB8A66B5FC52CC1) == 0x157C92212D1D1BB1
  {
  }

  lemma DataMergeSums()
    ensures Mul64(256, 0x9E3779B185EBCA87) == 0x3779B185EBCA8700 && Add64(0x3779B185EBCA8700, 0xDC74206C23426B2A) == 0x13EDD1F20F0CF22A
    ensures Add64(0x13EDD1F20F0CF22A, 0x5D404CD36E754C16) == 0x712E1EC57D823E40 && Add64(0x712E1EC57D823E40, 0x98EA803F3E0A12E3) == 0x0A189F04BB8C5123
    ensures Add64(0x0A189F04BB8C5123, 0x979DCC9AE461B804) == 0xA1B66B9F9FEE0927 && XorShr64(0xA1B66B9F9FEE0927, 37) == 0xA1B66B9F9AE3BA7B
    ensures Mul64(0xA1B66B9F9AE3BA7B, 0x165667919E3779F9) == 0xB6860F23451184A3 && XorShr64(0xB6860F23451184A3, 32) == 0xB6860F23F3978B80
    ensures Mul64(256, 0xC2B2AE3D27D4EB4F) == 0xB2AE3D27D4EB4F00 && S128.Complement(0xB2AE3D27D4EB4F00) == 0x4D51C2D82B14B0FF
    ensures Add64(0x4D51C2D82B14B0FF, 0x5A7937DC7DCB88D8) == 0xA7CAFAB4A8E039D7 && Add64(0xA7CAFAB4A8E039D7, 0x31B54B62FB610189) == 0xD9804617A4413B60
    ensures Add64(0xD9804617A4413B60, 0x6FCDF4831372BC8C) == 0x494E3A9AB7B3F7EC && Add64(0x494E3A9AB7B3F7EC, 0x157C92212D1D1BB1) == 0x5ECACCBBE4D1139D
    ensures XorShr64(0x5ECACCBBE4D1139D, 37) == 0x5ECACCBBE62745F8 && Mul64(0x5ECACCBBE62745F8, 0x165667919E3779F9) == 0xFD260BA2848D4638
    ensures XorShr64(0xFD260BA2848D4638, 32) == 0xFD260BA279AB4D9A
  {
  }

  lemma DataLowKeyed()
    ensures FoldAt(DataLanes(4), SecretFromSeed(SEED), 11, 0) == 0xDC74206C23426B2A
    ensures FoldAt(DataLanes(4), SecretFromSeed(SEED), 11, 1) == 0x5D404CD36E754C16
    ensures FoldAt(DataLanes(4), SecretFromSeed(SEED), 11, 2) == 0x98EA803F3E0A12E3
    ensures FoldAt(DataLanes(4), SecretFromSeed(SEED), 11, 3) == 0x979DCC9AE461B804
  {
    hide SecretFromSeed, WordAt, Xor64, Mul128Fold64;
    SeededAt11();
    DataMergeSteps();
    DataMergeFolds();
  }

  lemma DataLowMerged()
    ensures MergedFrom(DataLanes(4), SecretFromSeed(SEED), 11, 0x3779B185EBCA8700) == 0xB6860F23F3978B80
  {
    hide DataLanes, SecretFromSeed, FoldAt, Add64, Mul64, XorShr64;
    DataLowKeyed();
    DataMergeSums();
  }

  lemma DataMergeFolds()
    ensures Mul128Fold64(0x5421E65075CC6C20, 0xA4B972449898376E) == 0xDC74206C23426B2A
    ensures Mul128Fold64(0x6C9B6C0D4907AD4D, 0x4B27E519EF96D2F3) == 0x5D404CD36E754C16
    ensures Mul128Fold64(0x0B2B9D43D8FD7350, 0x45A2F68A68969B0A) == 0x98EA803F3E0A12E3
    ensures Mul128Fold64(0xADC86526B8E1EAB2, 0xE6866860C2CCE1C7) == 0x979DCC9AE461B804
    ensures Mul128Fold64(0x25FD1FFB3BABB8A8, 0xFAC50FAD205439FE) == 0x5A7937DC7DCB88D8
    ensures Mul128Fold64(0xF7A6803B415F881F, 0xC77FD8D956E184BD) == 0x31B54B62FB610189
    ensures Mul128Fold64(0x4D58B18CA5937BCD, 0xCF170C468B2B02AA) == 0x6FCDF4831372BC8C
    ensures Mul128Fold64(0x597161A554BBE213, 0xDB96B59C28DE58D0) == 0x157C92212D1D1BB1
  {
    hide Mul128Fold64, Xor64;
    DataMergeSteps();
    FoldIs(0x5421E65075CC6C20, 0xA4B972449898376E, 0xEA5689F4BC1155C0, 0x3622A9989F533EEA);
    FoldIs(0x6C9B6C0D4907AD4D, 0x4B27E519EF96D2F3, 0x42A239540C90AA17, 0x1FE2758762E5E601);
    FoldIs(0x0B2B9D43D8FD7350, 0x45A2F68A68969B0A, 0x9BE35D81FF97F120, 0x0309DDBEC19DE3C3);
    FoldIs(0xADC86526B8E1EAB2, 0xE6866860C2CCE1C7, 0x0BE0843A30BBE25E, 0x9C7D48A0D4DA5A5A);
    FoldIs(0x25FD1FFB3BABB8A8, 0xFAC50FAD205439FE, 0x7F4F5884079E9EB0, 0x25366F587A551668);
    FoldIs(0xF7A6803B415F881F, 0xC77FD8D956E184BD, 0xF14B506C92F67AE3, 0xC0FE1B0E69977B6A);
    FoldIs(0x4D58B18CA5937BCD, 0xCF170C468B2B02AA, 0x515C5ABD3556D022, 0x3E91AE3E26246CAE);
    FoldIs(0x597161A554BBE213, 0xDB96B59C28DE58D0, 0x59C4344A72D83770, 0x4CB8A66B5FC52CC1);
  }

  lemma DataHighKeyed()
    ensures FoldAt(DataLanes(4), SecretFromSeed(SEED), 117, 0) == 0x5A7937DC7DCB88D8
    ensures FoldAt(DataLanes(4), SecretFromSeed(SEED), 117, 1) == 0x31B54B62FB610189
    ensures FoldAt(DataLanes(4), SecretFromSeed(SEED), 117, 2) == 0x6FCDF4831372BC8C
    ensures FoldAt(DataLanes(4), SecretFromSeed(SEED), 117, 3) == 0x157C92212D1D1BB1
  {
    hide SecretFromSeed, WordAt, Xor64, Mul128Fold64;
    SeededAt117();
    DataMergeSteps();
    DataMergeFolds();
  }

  lemma DataHighMerged()
    ensures MergedFrom(DataLanes(4), SecretFromSeed(SEED), 117, 0x4D51C2D82B14B0FF) == 0xFD260BA279AB4D9A
  {
    hide DataLanes, SecretFromSeed, FoldAt, Add64, Mul64, XorShr64;
    DataHighKeyed();
    DataMergeSums();
  }

  /** Of 256 bytes, with a seed. */
  lemma DataAnswer()
    ensures Hash(S64.Width64(), LaneKernel(), WithSeed(SEED), Data256()) == 0xB6860F23F3978B80
    ensures Hash(S128.Width128(), LaneKernel(), WithSeed(SEED), Data256()) == Hash128(0xB6860F23F3978B80, 0xFD260BA279AB4D9A)
  {
    hide DataLanes, SecretFromSeed, Data256, LongAcc, Hash, MergedFrom, Mul64, LengthWord64, S128.Complement, S64.Width64,
         S128.Width128;
    DataLong();
    LongHash64(LaneKernel(), WithSeed(SEED), Data256(), DataLanes(4));
    LongHash128(LaneKernel(), WithSeed(SEED), Data256(), DataLanes(4));
    Length256();
    DataMergeSums();
    DataLowMerged();
    DataHighMerged();
  }

  // ---- 641 zeros on a secret of 136 bytes, more than one block ----

  function Secret136(): (s: Secret)
    ensures |s| == 136
  {
    KSecret()[..136]
  }

  lemma ShortKeys()
    ensures WordAt(Secret136(), 0) == 0xBE4BA423396CFEB8 && WordAt(Secret136(), 8) == 0x1CAD21F72C81017C
    ensures WordAt(Secret136(), 16) == 0xDB979083E96DD4DE && WordAt(Secret136(), 24) == 0x1F67B3B7A4A44072
    ensures WordAt(Secret136(), 32) == 0x78E5C0CC4EE679CB && WordAt(Secret136(), 40) == 0x2172FFCC7DD05A82
    ensures WordAt(Secret136(), 48) == 0x8E2443F7744608B8 && WordAt(Secret136(), 56) == 0x4C263A81E69035E0
    ensures WordAt(Secret136(), 64) == 0xCB00C391BB52283C && WordAt(Secret136(), 72) == 0xA32E531B8B65D088
    ensures WordAt(Secret136(), 80) == 0x4EF90DA297486471 && WordAt(Secret136(), 88) == 0xD8ACDEA946EF1938
    ensures WordAt(Secret136(), 96) == 0x3F349CE33F76FAA8 && WordAt(Secret136(), 104) == 0x1D4F0BC7C7BBDCF9
    ensures WordAt(Secret136(), 112) == 0x3159B4CD4BE0518A && WordAt(Secret136(), 120) == 0x647378D9C97E9FC8
    ensures WordAt(Secret136(), 128) == 0xC3EBD33483ACC5EA
  {
    hide KSecret, WordAt;
    Keys();
    WordOfPrefix(KSecret(), 136, 0);
    WordOfPrefix(KSecret(), 136, 8);
    WordOfPrefix(KSecret(), 136, 16);
    WordOfPrefix(KSecret(), 136, 24);
    WordOfPrefix(KSecret(), 136, 32);
    WordOfPrefix(KSecret(), 136, 40);
    WordOfPrefix(KSecret(), 136, 48);
    WordOfPrefix(KSecret(), 136, 56);
    WordOfPrefix(KSecret(), 136, 64);
    WordOfPrefix(KSecret(), 136, 72);
    WordOfPrefix(KSecret(), 136, 80);
    WordOfPrefix(KSecret(), 136, 88);
    WordOfPrefix(KSecret(), 136, 96);
    WordOfPrefix(KSecret(), 136, 104);
    WordOfPrefix(KSecret(), 136, 112);
    WordOfPrefix(KSecret(), 136, 120);
    WordOfPrefix(KSecret(), 136, 128);
  }

  lemma ShortKeysAt11()
    ensures WordAt(Secret136(), 11) == 0x6DD4DE1CAD21F72C && WordAt(Secret136(), 19) == 0xA44072DB979083E9
    ensures WordAt(Secret136(), 27) == 0xE679CB1F67B3B7A4 && WordAt(Secret136(), 35) == 0xD05A8278E5C0CC4E
    ensures WordAt(Secret136(), 43) == 0x4608B82172FFCC7D && WordAt(Secret136(), 51) == 0x9035E08E2443F774
    ensures WordAt(Secret136(), 59) == 0x52283C4C263A81E6 && WordAt(Secret136(), 67) == 0x65D088CB00C391BB
  {
    hide KSecret, WordAt;
    KeysAt11();
    WordOfPrefix(KSecret(), 136, 11);
    WordOfPrefix(KSecret(), 136, 19);
    WordOfPrefix(KSecret(), 136, 27);
    WordOfPrefix(KSecret(), 136, 35);
    WordOfPrefix(KSecret(), 136, 43);
    WordOfPrefix(KSecret(), 136, 51);
    WordOfPrefix(KSecret(), 136, 59);
    WordOfPrefix(KSecret(), 136, 67);
  }

  lemma ShortKeysAt61()
    ensures WordAt(Secret136(), 61) == 0x91BB52283C4C263A && WordAt(Secret136(), 69) == 0x1B8B65D088CB00C3
    ensures WordAt(Secret136(), 77) == 0xA297486471A32E53 && WordAt(Secret136(), 85) == 0xA946EF19384EF90D
    ensures WordAt(Secret136(), 93) == 0xE33F76FAA8D8ACDE && WordAt(Secret136(), 101) == 0xC7C7BBDCF93F349C
    ensures WordAt(Secret136(), 109) == 0xCD4BE0518A1D4F0B && WordAt(Secret136(), 117) == 0xD9C97E9FC83159B4
  {
    hide KSecret, WordAt;
    KeysAt61();
    WordOfPrefix(KSecret(), 136, 61);
    WordOfPrefix(KSecret(), 136, 69);
    WordOfPrefix(KSecret(), 136, 77);
    WordOfPrefix(KSecret(), 136, 85);
    WordOfPrefix(KSecret(), 136, 93);
    WordOfPrefix(KSecret(), 136, 101);
    WordOfPrefix(KSecret(), 136, 109);
    WordOfPrefix(KSecret(), 136, 117);
  }

  lemma ShortKeysAt65()
    ensures WordAt(Secret136(), 65) == 0x88CB00C391BB5228 && WordAt(Secret136(), 73) == 0x71A32E531B8B65D0
    ensures WordAt(Secret136(), 81) == 0x384EF90DA2974864 && WordAt(Secret136(), 89) == 0xA8D8ACDEA946EF19
    ensures WordAt(Secret136(), 97) == 0xF93F349CE33F76FA && WordAt(Secret136(), 105) == 0x8A1D4F0BC7C7BBDC
    ensures WordAt(Secret136(), 113) == 0xC83159B4CD4BE051 && WordAt(Secret136(), 121) == 0xEA647378D9C97E9F
  {
    hide KSecret, WordAt;
    KeysAt65();
    WordOfPrefix(KSecret(), 136, 65);
    WordOfPrefix(KSecret(), 136, 73);
    WordOfPrefix(KSecret(), 136, 81);
    WordOfPrefix(KSecret(), 136, 89);
    WordOfPrefix(KSecret(), 136, 97);
    WordOfPrefix(KSecret(), 136, 105);
    WordOfPrefix(KSecret(), 136, 113);
    WordOfPrefix(KSecret(), 136, 121);
  }

  /** The lanes after each of nine stripes, after the scramble, after the next stripe, and after the last one. */
  function BlockLanes(i: nat): Acc {
    match i
    case 0 => INIT_ACC
    case 1 => [0x2AAFDCCD9FAF6165, 0xA333AEF0A861352B, 0x8AEDD6E4DBB7B8E9, 0x2A88FD29E48F4177,
               0xAB2EA325984AFC27, 0x1070602A61FF680F, 0x68643CBCE410F94D, 0x44953E17F8575F91]
    case 2 => [0x2FAC120CC224CC09, 0x6B6ED7985C4402C5, 0x9F206C5D220F8067, 0x4FCBD5D7BA278F3B,
               0xBB9F034F745E99BF, 0x50FFB1B82FB9F997, 0xACF97AD43E30DF2D, 0xD91FF3193A85DD8D]
    case 3 => [0xF7E73AB4760799A3, 0x7FA16D10A29BCA43, 0xC463450AF7A7CE2B, 0x603C3601963B2CD3,
               0xFC2E54DD42192B47, 0x9594EFCF89D9DF77, 0x41842FD5805F5D29, 0x31FB006C014EF3E5]
    case 4 => [0x0C19D02CBC5F6121, 0xA4E445BE78341807, 0xD4D3A534D3BB6BC3, 0xA0CB878F63F5BE5B,
               0x40C392F49C391127, 0x2A1FA4D0CC085D73, 0x9A5F3D2847287381, 0x60A63C7E8A214067]
    case 5 => [0x315CA8DA91F7AEE5, 0xB554A5E85447B59F, 0x1562F6C2A175FD4B, 0xE560C5A6BE15A43B,
               0xD54E47F5DE678F23, 0x82FAB22392D173CB, 0xC90A793ACFFAC003, 0x9CAFE01CE777765F]
    case 6 => [0x41CD09046E0B4C7D, 0xF5E3F77622024727, 0x59F834D9FB95E32B, 0x79EB7AA800442237,
               0x2E295548A530A57B, 0xB1A5EE361BA3C04D, 0x05141CD92D50F5FB, 0xAC5B32DBF0D61957]
    case 7 => [0x825C5A923BC5DE05, 0x3A79358D7C222D07, 0xEE82E9DB3DC46127, 0xD2C687FAC70D388F,
               0x5CD4915B2E02F1FD, 0xEDAF91D478F9F645, 0x14BF6F9836AF98F3, 0xC339270DAC3491E6]
    case 8 => [0xC6F198A995E5C3E5, 0xCF03EA8EBE50AB03, 0x475DF72E048D777F, 0x0171C40D4FDF8511,
               0x98DE34F98B5927F5, 0xFD5AE4938258993D, 0x2B9D63C9F20E1182, 0xD1D9AD3BEB24E568]
    case 9 => [0x5B7C4DAAD81441E1, 0x27DEF7E18519C15B, 0x760933408D5FC401, 0x3D7B67ABAD35BB09,
               0xA88987B894B7CAED, 0x1438D8C53DB711CC, 0x3A3DE9F830FE6504, 0x20EA06A5F93815F0]
    case 10 => [0x8AE1CCC62B16E441, 0xC3A53A6AFAF59167, 0x971E811F364C51BB, 0x2DEEF56059392627,
                0x4B4C5BFA47416AD7, 0x534710E278820D07, 0x7D355A1EE0A82B87, 0x7E1F746E70E52D6E]
    case 11 => [0xB591A99308139769, 0xC8A16FAA1D6AFC0B, 0x5F59A9C6EA2F1F55, 0x42218AD89F90EDA5,
                0x708F34A81CD9B89B, 0x63B7710C5495AA9F, 0xBDC4ABACAE62BD0F, 0xC2B4B285CB05134E]
    case _ => [0x0370BD316F7B2BE1, 0xD4DB8658BB585E7B, 0x831CE9E23FBF1069, 0xB1C75DE938D11153,
                0x4DD00AB2ED3700F3, 0xCF7FFBA06D0FA113, 0x5E4F8661A0399F03, 0x8A1C55343175DAD6]
  }

  lemma BlockLastProducts()
    ensures HalvesTimes(0x88CB00C391BB5228) == 0x4DDF139E67679478 && HalvesTimes(0x71A32E531B8B65D0) == 0x0C3A16AE9DED6270
    ensures HalvesTimes(0x384EF90DA2974864) == 0x23C3401B558FF114 && HalvesTimes(0xA8D8ACDEA946EF19) == 0x6FA5D310994023AE
    ensures HalvesTimes(0xF93F349CE33F76FA) == 0xDD40D60AD05D4858 && HalvesTimes(0x8A1D4F0BC7C7BBDC) == 0x6BC88A941879F674
    ensures HalvesTimes(0xC83159B4CD4BE051) == 0xA08ADAB4F1D6E1F4 && HalvesTimes(0xEA647378D9C97E9F) == 0xC767A2AE6670C788
  {
  }

  lemma BlockSteps()
    ensures Add64(0x00000000C2B2AE3D, 0x2AAFDCCCDCFCB328) == 0x2AAFDCCD9FAF6165 && Add64(0x9E3779B185EBCA87, 0x04FC353F22756AA4) == 0xA333AEF0A861352B
    ensures Add64(0xC2B2AE3D27D4EB4F, 0xC83B28A7B3E2CD9A) == 0x8AEDD6E4DBB7B8E9 && Add64(0x165667B19E3779F9, 0x143295784657C77E) == 0x2A88FD29E48F4177
    ensures Add64(0x85EBCA77C2B2AE63, 0x2542D8ADD5984DC4) == 0xAB2EA325984AFC27 && Add64(0x0000000085EBCA77, 0x10706029DC139D98) == 0x1070602A61FF680F
    ensures Add64(0x27D4EB2F165667C5, 0x408F518DCDBA9188) == 0x68643CBCE410F94D && Add64(0x000000009E3779B1, 0x44953E175A1FE5E0) == 0x44953E17F8575F91
    ensures Add64(0x2AAFDCCD9FAF6165, 0x04FC353F22756AA4) == 0x2FAC120CC224CC09 && Add64(0xA333AEF0A861352B, 0xC83B28A7B3E2CD9A) == 0x6B6ED7985C4402C5
    ensures Add64(0x8AEDD6E4DBB7B8E9, 0x143295784657C77E) == 0x9F206C5D220F8067 && Add64(0x2A88FD29E48F4177, 0x2542D8ADD5984DC4) == 0x4FCBD5D7BA278F3B
    ensures Add64(0xAB2EA325984AFC27, 0x10706029DC139D98) == 0xBB9F034F745E99BF && Add64(0x1070602A61FF680F, 0x408F518DCDBA9188) == 0x50FFB1B82FB9F997
    ensures Add64(0x68643CBCE410F94D, 0x44953E175A1FE5E0) == 0xACF97AD43E30DF2D && Add64(0x44953E17F8575F91, 0x948AB501422E7DFC) == 0xD91FF3193A85DD8D
    ensures Add64(0x2FAC120CC224CC09, 0xC83B28A7B3E2CD9A) == 0xF7E73AB4760799A3 && Add64(0x6B6ED7985C4402C5, 0x143295784657C77E) == 0x7FA16D10A29BCA43
    ensures Add64(0x9F206C5D220F8067, 0x2542D8ADD5984DC4) == 0xC463450AF7A7CE2B && Add64(0x4FCBD5D7BA278F3B, 0x10706029DC139D98) == 0x603C3601963B2CD3
    ensures Add64(0xBB9F034F745E99BF, 0x408F518DCDBA9188) == 0xFC2E54DD42192B47 && Add64(0x50FFB1B82FB9F997, 0x44953E175A1FE5E0) == 0x9594EFCF89D9DF77
    ensures Add64(0xACF97AD43E30DF2D, 0x948AB501422E7DFC) == 0x41842FD5805F5D29 && Add64(0xD91FF3193A85DD8D, 0x58DB0D52C6C91658) == 0x31FB006C014EF3E5
    ensures Add64(0xF7E73AB4760799A3, 0x143295784657C77E) == 0x0C19D02CBC5F6121 && Add64(0x7FA16D10A29BCA43, 0x2542D8ADD5984DC4) == 0xA4E445BE78341807
    ensures Add64(0xC463450AF7A7CE2B, 0x10706029DC139D98) == 0xD4D3A534D3BB6BC3 && Add64(0x603C3601963B2CD3, 0x408F518DCDBA9188) == 0xA0CB878F63F5BE5B
    ensures Add64(0xFC2E54DD42192B47, 0x44953E175A1FE5E0) == 0x40C392F49C391127 && Add64(0x9594EFCF89D9DF77, 0x948AB501422E7DFC) == 0x2A1FA4D0CC085D73
    ensures Add64(0x41842FD5805F5D29, 0x58DB0D52C6C91658) == 0x9A5F3D2847287381 && Add64(0x31FB006C014EF3E5, 0x2EAB3C1288D24C82) == 0x60A63C7E8A214067
    ensures Add64(0x0C19D02CBC5F6121, 0x2542D8ADD5984DC4) == 0x315CA8DA91F7AEE5 && Add64(0xA4E445BE78341807, 0x10706029DC139D98) == 0xB554A5E85447B59F
    ensures Add64(0xD4D3A534D3BB6BC3, 0x408F518DCDBA9188) == 0x1562F6C2A175FD4B && Add64(0xA0CB878F63F5BE5B, 0x44953E175A1FE5E0) == 0xE560C5A6BE15A43B
    ensures Add64(0x40C392F49C391127, 0x948AB501422E7DFC) == 0xD54E47F5DE678F23 && Add64(0x2A1FA4D0CC085D73, 0x58DB0D52C6C91658) == 0x82FAB22392D173CB
    ensures Add64(0x9A5F3D2847287381, 0x2EAB3C1288D24C82) == 0xC90A793ACFFAC003 && Add64(0x60A63C7E8A214067, 0x3C09A39E5D5635F8) == 0x9CAFE01CE777765F
    ensures Add64(0x315CA8DA91F7AEE5, 0x10706029DC139D98) == 0x41CD09046E0B4C7D && Add64(0xB554A5E85447B59F, 0x408F518DCDBA9188) == 0xF5E3F77622024727
    ensures Add64(0x1562F6C2A175FD4B, 0x44953E175A1FE5E0) == 0x59F834D9FB95E32B && Add64(0xE560C5A6BE15A43B, 0x948AB501422E7DFC) == 0x79EB7AA800442237
    ensures Add64(0xD54E47F5DE678F23, 0x58DB0D52C6C91658) == 0x2E295548A530A57B && Add64(0x82FAB22392D173CB, 0x2EAB3C1288D24C82) == 0xB1A5EE361BA3C04D
    ensures Add64(0xC90A793ACFFAC003, 0x3C09A39E5D5635F8) == 0x05141CD92D50F5FB && Add64(0x9CAFE01CE777765F, 0x0FAB52BF095EA2F8) == 0xAC5B32DBF0D61957
    ensures Add64(0x41CD09046E0B4C7D, 0x408F518DCDBA9188) == 0x825C5A923BC5DE05 && Add64(0xF5E3F77622024727, 0x44953E175A1FE5E0) == 0x3A79358D7C222D07
    ensures Add64(0x59F834D9FB95E32B, 0x948AB501422E7DFC) == 0xEE82E9DB3DC46127 && Add64(0x79EB7AA800442237, 0x58DB0D52C6C91658) == 0xD2C687FAC70D388F
    ensures Add64(0x2E295548A530A57B, 0x2EAB3C1288D24C82) == 0x5CD4915B2E02F1FD && Add64(0xB1A5EE361BA3C04D, 0x3C09A39E5D5635F8) == 0xEDAF91D478F9F645
    ensures Add64(0x05141CD92D50F5FB, 0x0FAB52BF095EA2F8) == 0x14BF6F9836AF98F3 && Add64(0xAC5B32DBF0D61957, 0x16DDF431BB5E788F) == 0xC339270DAC3491E6
    ensures Add64(0x825C5A923BC5DE05, 0x44953E175A1FE5E0) == 0xC6F198A995E5C3E5 && Add64(0x3A79358D7C222D07, 0x948AB501422E7DFC) == 0xCF03EA8EBE50AB03
    ensures Add64(0xEE82E9DB3DC46127, 0x58DB0D52C6C91658) == 0x475DF72E048D777F && Add64(0xD2C687FAC70D388F, 0x2EAB3C1288D24C82) == 0x0171C40D4FDF8511
    ensures Add64(0x5CD4915B2E02F1FD, 0x3C09A39E5D5635F8) == 0x98DE34F98B5927F5 && Add64(0xEDAF91D478F9F645, 0x0FAB52BF095EA2F8) == 0xFD5AE4938258993D
    ensures Add64(0x14BF6F9836AF98F3, 0x16DDF431BB5E788F) == 0x2B9D63C9F20E1182 && Add64(0xC339270DAC3491E6, 0x0EA0862E3EF05382) == 0xD1D9AD3BEB24E568
    ensures Add64(0xC6F198A995E5C3E5, 0x948AB501422E7DFC) == 0x5B7C4DAAD81441E1 && Add64(0xCF03EA8EBE50AB03, 0x58DB0D52C6C91658) == 0x27DEF7E18519C15B
    ensures Add64(0x475DF72E048D777F, 0x2EAB3C1288D24C82) == 0x760933408D5FC401 && Add64(0x0171C40D4FDF8511, 0x3C09A39E5D5635F8) == 0x3D7B67ABAD35BB09
    ensures Add64(0x98DE34F98B5927F5, 0x0FAB52BF095EA2F8) == 0xA88987B894B7CAED && Add64(0xFD5AE4938258993D, 0x16DDF431BB5E788F) == 0x1438D8C53DB711CC
    ensures Add64(0x2B9D63C9F20E1182, 0x0EA0862E3EF05382) == 0x3A3DE9F830FE6504 && Add64(0xD1D9AD3BEB24E568, 0x4F10596A0E133088) == 0x20EA06A5F93815F0
    ensures Add64(0x8AE1CCC62B16E441, 0x2AAFDCCCDCFCB328) == 0xB591A99308139769 && Add64(0xC3A53A6AFAF59167, 0x04FC353F22756AA4) == 0xC8A16FAA1D6AFC0B
    ensures Add64(0x971E811F364C51BB, 0xC83B28A7B3E2CD9A) == 0x5F59A9C6EA2F1F55 && Add64(0x2DEEF56059392627, 0x143295784657C77E) == 0x42218AD89F90EDA5
    ensures Add64(0x4B4C5BFA47416AD7, 0x2542D8ADD5984DC4) == 0x708F34A81CD9B89B && Add64(0x534710E278820D07, 0x10706029DC139D98) == 0x63B7710C5495AA9F
    ensures Add64(0x7D355A1EE0A82B87, 0x408F518DCDBA9188) == 0xBDC4ABACAE62BD0F && Add64(0x7E1F746E70E52D6E, 0x44953E175A1FE5E0) == 0xC2B4B285CB05134E
    ensures Add64(0xB591A99308139769, 0x4DDF139E67679478) == 0x0370BD316F7B2BE1 && Add64(0xC8A16FAA1D6AFC0B, 0x0C3A16AE9DED6270) == 0xD4DB8658BB585E7B
    ensures Add64(0x5F59A9C6EA2F1F55, 0x23C3401B558FF114) == 0x831CE9E23FBF1069 && Add64(0x42218AD89F90EDA5, 0x6FA5D310994023AE) == 0xB1C75DE938D11153
    ensures Add64(0x708F34A81CD9B89B, 0xDD40D60AD05D4858) == 0x4DD00AB2ED3700F3 && Add64(0x63B7710C5495AA9F, 0x6BC88A941879F674) == 0xCF7FFBA06D0FA113
    ensures Add64(0xBDC4ABACAE62BD0F, 0xA08ADAB4F1D6E1F4) == 0x5E4F8661A0399F03 && Add64(0xC2B4B285CB05134E, 0xC767A2AE6670C788) == 0x8A1C55343175DAD6
  {
  }

  lemma BlockStripe0()
    ensures ZeroLanesFrom(BlockLanes(0), Secret136(), 0) == BlockLanes(1)
  {
    hide Secret136, WordAt, HalvesTimes, Add64;
    ShortKeys();
    KeyProducts();
    BlockSteps();
  }

  lemma BlockStripe1()
    ensures ZeroLanesFrom(BlockLanes(1), Secret136(), 8) == BlockLanes(2)
  {
    hide Secret136, WordAt, HalvesTimes, Add64;
    ShortKeys();
    KeyProducts();
    BlockSteps();
  }

  lemma BlockStripe2()
    ensures ZeroLanesFrom(BlockLanes(2), Secret136(), 16) == BlockLanes(3)
  {
    hide Secret136, WordAt, HalvesTimes, Add64;
    ShortKeys();
    KeyProducts();
    BlockSteps();
  }

  lemma BlockStripe3()
    ensures ZeroLanesFrom(BlockLanes(3), Secret136(), 24) == BlockLanes(4)
  {
    hide Secret136, WordAt, HalvesTimes, Add64;
    ShortKeys();
    KeyProducts();
    BlockSteps();
  }

  lemma BlockStripe4()
    ensures ZeroLanesFrom(BlockLanes(4), Secret136(), 32) == BlockLanes(5)
  {
    hide Secret136, WordAt, HalvesTimes, Add64;
    ShortKeys();
    KeyProducts();
    BlockSteps();
  }

  lemma BlockStripe5()
    ensures ZeroLanesFrom(BlockLanes(5), Secret136(), 40) == BlockLanes(6)
  {
    hide Secret136, WordAt, HalvesTimes, Add64;
    ShortKeys();
    KeyProducts();
    BlockSteps();
  }

  lemma BlockStripe6()
    ensures ZeroLanesFrom(BlockLanes(6), Secret136(), 48) == BlockLanes(7)
  {
    hide Secret136, WordAt, HalvesTimes, Add64;
    ShortKeys();
    KeyProducts();
    BlockSteps();
  }

  lemma BlockStripe7()
    ensures ZeroLanesFrom(BlockLanes(7), Secret136(), 56) == BlockLanes(8)
  {
    hide Secret136, WordAt, HalvesTimes, Add64;
    ShortKeys();
    KeyProducts();
    BlockSteps();
  }

  lemma BlockStripe8()
    ensures ZeroLanesFrom(BlockLanes(8), Secret136(), 64) == BlockLanes(9)
  {
    hide Secret136, WordAt, HalvesTimes, Add64;
    ShortKeys();
    KeyProducts();
    BlockSteps();
  }

  lemma BlockSteps9()
    ensures XorShift47(0x5B7C4DAAD81441E1) == 0x5B7C4DAAD814F719 && Xor64(0x5B7C4DAAD814F719, 0xA32E531B8B65D088) == 0xF8521EB153712791
    ensures TimesPrime32(0xF8521EB153712791) == 0x8AE1CCC62B16E441 && XorShift47(0x27DEF7E18519C15B) == 0x27DEF7E185198EE6
    ensures Xor64(0x27DEF7E185198EE6, 0x4EF90DA297486471) == 0x6927FA431251EA97 && TimesPrime32(0x6927FA431251EA97) == 0xC3A53A6AFAF59167
    ensures XorShift47(0x760933408D5FC401) == 0x760933408D5F2813 && Xor64(0x760933408D5F2813, 0xD8ACDEA946EF1938) == 0xAEA5EDE9CBB0312B
    ensures TimesPrime32(0xAEA5EDE9CBB0312B) == 0x971E811F364C51BB && XorShift47(0x3D7B67ABAD35BB09) == 0x3D7B67ABAD35C1FF
    ensures Xor64(0x3D7B67ABAD35C1FF, 0x3F349CE33F76FAA8) == 0x024FFB4892433B57 && TimesPrime32(0x024FFB4892433B57) == 0x2DEEF56059392627
    ensures XorShift47(0xA88987B894B7CAED) == 0xA88987B894B69BFE && Xor64(0xA88987B894B69BFE, 0x1D4F0BC7C7BBDCF9) == 0xB5C68C7F530D4707
    ensures TimesPrime32(0xB5C68C7F530D4707) == 0x4B4C5BFA47416AD7 && XorShift47(0x1438D8C53DB711CC) == 0x1438D8C53DB739BD
    ensures Xor64(0x1438D8C53DB739BD, 0x3159B4CD4BE0518A) == 0x25616C0876576837 && TimesPrime32(0x25616C0876576837) == 0x534710E278820D07
    ensures XorShift47(0x3A3DE9F830FE6504) == 0x3A3DE9F830FE117F && Xor64(0x3A3DE9F830FE117F, 0x647378D9C97E9FC8) == 0x5E4E9121F9808EB7
    ensures TimesPrime32(0x5E4E9121F9808EB7) == 0x7D355A1EE0A82B87 && XorShift47(0x20EA06A5F93815F0) == 0x20EA06A5F9385424
    ensures Xor64(0x20EA06A5F9385424, 0xC3EBD33483ACC5EA) == 0xE301D5917A9491CE && TimesPrime32(0xE301D5917A9491CE) == 0x7E1F746E70E52D6E
  {
  }

  lemma BlockScramble()
    ensures ScrambledFrom(BlockLanes(9), Secret136(), 72) == BlockLanes(10)
  {
    hide Secret136, WordAt, XorShift47, TimesPrime32, Xor64;
    ShortKeys();
    BlockSteps9();
  }

  lemma BlockStripe10()
    ensures ZeroLanesFrom(BlockLanes(10), Secret136(), 0) == BlockLanes(11)
  {
    hide Secret136, WordAt, HalvesTimes, Add64;
    ShortKeys();
    KeyProducts();
    BlockSteps();
  }

  lemma BlockStripe11()
    ensures ZeroLanesFrom(BlockLanes(11), Secret136(), 65) == BlockLanes(12)
  {
    hide Secret136, WordAt, HalvesTimes, Add64;
    ShortKeysAt65();
    BlockLastProducts();
    BlockSteps();
  }

  lemma BlockStart()
    ensures Run(LaneKernel(), Secret136(), START, Zeros(641), 0) == Progress(BlockLanes(0), 0)
  {
    hide Secret136, Zeros, Run;
    NoStripes(Secret136(), Zeros(641));
  }

  lemma BlockRun4()
    ensures Run(LaneKernel(), Secret136(), START, Zeros(641), 4) == Progress(BlockLanes(4), 4)
  {
    hide Secret136, Zeros, BlockLanes, LanesFrom, ZeroLanesFrom, ScrambledFrom, Run;
    BlockStart();
    BlockStripe0();
    ZerosAccumulate(BlockLanes(0), 641, 0, Secret136(), 0);
    NextStripe(Secret136(), Zeros(641), 0, BlockLanes(0), 0);
    BlockStripe1();
    ZerosAccumulate(BlockLanes(1), 641, 64, Secret136(), 8);
    NextStripe(Secret136(), Zeros(641), 1, BlockLanes(1), 1);
    BlockStripe2();
    ZerosAccumulate(BlockLanes(2), 641, 128, Secret136(), 16);
    NextStripe(Secret136(), Zeros(641), 2, BlockLanes(2), 2);
    BlockStripe3();
    ZerosAccumulate(BlockLanes(3), 641, 192, Secret136(), 24);
    NextStripe(Secret136(), Zeros(641), 3, BlockLanes(3), 3);
  }

  lemma BlockRun8()
    ensures Run(LaneKernel(), Secret136(), START, Zeros(641), 8) == Progress(BlockLanes(8), 8)
  {
    hide Secret136, Zeros, BlockLanes, LanesFrom, ZeroLanesFrom, ScrambledFrom, Run;
    BlockRun4();
    BlockStripe4();
    ZerosAccumulate(BlockLanes(4), 641, 256, Secret136(), 32);
    NextStripe(Secret136(), Zeros(641), 4, BlockLanes(4), 4);
    BlockStripe5();
    ZerosAccumulate(BlockLanes(5), 641, 320, Secret136(), 40);
    NextStripe(Secret136(), Zeros(641), 5, BlockLanes(5), 5);
    BlockStripe6();
    ZerosAccumulate(BlockLanes(6), 641, 384, Secret136(), 48);
    NextStripe(Secret136(), Zeros(641), 6, BlockLanes(6), 6);
    BlockStripe7();
    ZerosAccumulate(BlockLanes(7), 641, 448, Secret136(), 56);
    NextStripe(Secret136(), Zeros(641), 7, BlockLanes(7), 7);
  }

  /** The ninth stripe fills the block. */
  lemma BlockRun9()
    ensures Run(LaneKernel(), Secret136(), START, Zeros(641), 9) == Progress(BlockLanes(10), 0)
  {
    hide Secret136, Zeros, BlockLanes, LanesFrom, ZeroLanesFrom, ScrambledFrom, Run;
    BlockRun8();
    BlockScramble();
    BlockStripe8();
    ZerosAccumulate(BlockLanes(8), 641, 512, Secret136(), 64);
    NextStripe(Secret136(), Zeros(641), 8, BlockLanes(8), 8);
  }

  lemma BlockRun10()
    ensures Run(LaneKernel(), Secret136(), START, Zeros(641), 10) == Progress(BlockLanes(11), 1)
  {
    hide Secret136, Zeros, BlockLanes, LanesFrom, ZeroLanesFrom, ScrambledFrom, Run;
    BlockRun9();
    BlockStripe10();
    ZerosAccumulate(BlockLanes(10), 641, 576, Secret136(), 0);
    NextStripe(Secret136(), Zeros(641), 9, BlockLanes(10), 0);
  }

  lemma BlockLong()
    ensures LongAcc(LaneKernel(), Secret136(), Zeros(641)) == BlockLanes(12)
  {
    hide Secret136, Zeros, BlockLanes, LanesFrom, ZeroLanesFrom, LongAcc, Run;
    BlockRun10();
    BlockStripe11();
    ZerosAccumulate(BlockLanes(11), 641, 577, Secret136(), 65);
    LongLanes(Secret136(), Zeros(641), BlockLanes(11), 1);
  }

  lemma LengthIs641()
    ensures Num(641) == 641
  {
  }

  lemma Length641()
    ensures LengthWord64(641) == 641
  {
    hide Num, LengthWord64;
    LengthIs641();
    LengthNum(641);
    SameNum(LengthWord64(641), 641);
  }

  lemma BlockMergeSteps()
    ensures Xor64(0x0370BD316F7B2BE1, 0x6DD4DE1CAD21F72C) == 0x6EA4632DC25ADCCD && Xor64(0xD4DB8658BB585E7B, 0xA44072DB979083E9) == 0x709BF4832CC8DD92
    ensures Xor64(0xCB97E6B80496E5EA, 0x30AB529971BDDC82) == 0xFB3CB421752B3968 && Xor64(0x831CE9E23FBF1069, 0xE679CB1F67B3B7A4) == 0x656522FD580CA7CD
    ensures Xor64(0xB1C75DE938D11153, 0xD05A8278E5C0CC4E) == 0x619DDF91DD11DD1D && Xor64(0x4E8F0F8603E7FB39, 0x26A9D9D5530EAF09) == 0x6826D65350E95430
    ensures Xor64(0x4DD00AB2ED3700F3, 0x4608B82172FFCC7D) == 0x0BD8B2939FC8CC8E && Xor64(0xCF7FFBA06D0FA113, 0x9035E08E2443F774) == 0x5F4A1B2E494C5667
    ensures Xor64(0x6344DE87F6AA0122, 0x0468D82A6621AF95) == 0x672C06AD908BAEB7 && Xor64(0x5E4F8661A0399F03, 0x52283C4C263A81E6) == 0x0C67BA2D86031EE5
    ensures Xor64(0x8A1C55343175DAD6, 0x65D088CB00C391BB) == 0xEFCCDDFF31B64B6D && Xor64(0x56FCF1E1C52F3E81, 0x0B9EC43AC5D82466) == 0x5D6235DB00F71AE7
    ensures Xor64(0x0370BD316F7B2BE1, 0x91BB52283C4C263A) == 0x92CBEF1953370DDB && Xor64(0xD4DB8658BB585E7B, 0x1B8B65D088CB00C3) == 0xCF50E38833935EB8
    ensures Xor64(0x2B7674799C695F68, 0x76E14889212121B3) == 0x5D973CF0BD487EDB && Xor64(0x831CE9E23FBF1069, 0xA297486471A32E53) == 0x218BA1864E1C3E3A
    ensures Xor64(0xB1C75DE938D11153, 0xA946EF19384EF90D) == 0x1881B2F0009FE85E && Xor64(0xD70A3404ECC9694C, 0x033615F3854BC675) == 0xD43C21F76982AF39
    ensures Xor64(0x4DD00AB2ED3700F3, 0xE33F76FAA8D8ACDE) == 0xAEEF7C4845EFAC2D && Xor64(0xCF7FFBA06D0FA113, 0xC7C7BBDCF93F349C) == 0x08B8407C9430958F
    ensures Xor64(0x2492CF59DC875E23, 0x05F564149677AD17) == 0x2167AB4D4AF0F334 && Xor64(0x5E4F8661A0399F03, 0xCD4BE0518A1D4F0B) == 0x930466302A24D008
    ensures Xor64(0x8A1C55343175DAD6, 0xD9C97E9FC83159B4) == 0x53D52BABF9448362 && Xor64(0x89F3117802ABBB10, 0x3024D8DF23FDF957) == 0xB9D7C9A721564247
  {
  }

  lemma BlockMergeSums()
    ensures Mul64(641, 0x9E3779B185EBCA87) == 0x28E7B58053661C07 && Add64(0x28E7B58053661C07, 0xFB3CB421752B3968) == 0x242469A1C891556F
    ensures Add64(0x242469A1C891556F, 0x6826D65350E95430) == 0x8C4B3FF5197AA99F && Add64(0x8C4B3FF5197AA99F, 0x672C06AD908BAEB7) == 0xF37746A2AA065856
    ensures Add64(0xF37746A2AA065856, 0x5D6235DB00F71AE7) == 0x50D97C7DAAFD733D && XorShr64(0x50D97C7DAAFD733D, 37) == 0x50D97C7DA87BB8DE
    ensures Mul64(0x50D97C7DA87BB8DE, 0x165667919E3779F9) == 0x206611471669BDEE && XorShr64(0x206611471669BDEE, 32) == 0x20661147360FACA9
    ensures Mul64(641, 0xC2B2AE3D27D4EB4F) == 0x81664720BC2130CF && S128.Complement(0x81664720BC2130CF) == 0x7E99B8DF43DECF30
    ensures Add64(0x7E99B8DF43DECF30, 0x5D973CF0BD487EDB) == 0xDC30F5D001274E0B && Add64(0xDC30F5D001274E0B, 0xD43C21F76982AF39) == 0xB06D17C76AA9FD44
    ensures Add64(0xB06D17C76AA9FD44, 0x2167AB4D4AF0F334) == 0xD1D4C314B59AF078 && Add64(0xD1D4C314B59AF078, 0xB9D7C9A721564247) == 0x8BAC8CBBD6F132BF
    ensures XorShr64(0x8BAC8CBBD6F132BF, 37) == 0x8BAC8CBBD2AC56DA && Mul64(0x8BAC8CBBD2AC56DA, 0x165667919E3779F9) == 0x2585315E9383840A
    ensures XorShr64(0x2585315E9383840A, 32) == 0x2585315EB606B554
  {
  }

  lemma BlockLowKeyed()
    ensures FoldAt(BlockLanes(12), Secret136(), 11, 0) == 0xFB3CB421752B3968 && FoldAt(BlockLanes(12), Secret136(), 11, 1) == 0x6826D65350E95430
    ensures FoldAt(BlockLanes(12), Secret136(), 11, 2) == 0x672C06AD908BAEB7 && FoldAt(BlockLanes(12), Secret136(), 11, 3) == 0x5D6235DB00F71AE7
  {
    hide Secret136, WordAt, Xor64, Mul128Fold64;
    ShortKeysAt11();
    BlockMergeSteps();
    BlockMergeFolds();
  }

  lemma BlockLowMerged()
    ensures MergedFrom(BlockLanes(12), Secret136(), 11, 0x28E7B58053661C07) == 0x20661147360FACA9
  {
    hide BlockLanes, Secret136, FoldAt, Add64, Mul64, XorShr64;
    BlockLowKeyed();
    BlockMergeSums();
  }

  lemma BlockMergeFolds()
    ensures Mul128Fold64(0x6EA4632DC25ADCCD, 0x709BF4832CC8DD92) == 0xFB3CB421752B3968
    ensures Mul128Fold64(0x656522FD580CA7CD, 0x619DDF91DD11DD1D) == 0x6826D65350E95430
    ensures Mul128Fold64(0x0BD8B2939FC8CC8E, 0x5F4A1B2E494C5667) == 0x672C06AD908BAEB7
    ensures Mul128Fold64(0x0C67BA2D86031EE5, 0xEFCCDDFF31B64B6D) == 0x5D6235DB00F71AE7
    ensures Mul128Fold64(0x92CBEF1953370DDB, 0xCF50E38833935EB8) == 0x5D973CF0BD487EDB
    ensures Mul128Fold64(0x218BA1864E1C3E3A, 0x1881B2F0009FE85E) == 0xD43C21F76982AF39
    ensures Mul128Fold64(0xAEEF7C4845EFAC2D, 0x08B8407C9430958F) == 0x2167AB4D4AF0F334
    ensures Mul128Fold64(0x930466302A24D008, 0x53D52BABF9448362) == 0xB9D7C9A721564247
  {
    hide Mul128Fold64, Xor64;
    BlockMergeSteps();
    FoldIs(0x6EA4632DC25ADCCD, 0x709BF4832CC8DD92, 0xCB97E6B80496E5EA, 0x30AB529971BDDC82);
    FoldIs(0x656522FD580CA7CD, 0x619DDF91DD11DD1D, 0x4E8F0F8603E7FB39, 0x26A9D9D5530EAF09);
    FoldIs(0x0BD8B2939FC8CC8E, 0x5F4A1B2E494C5667, 0x6344DE87F6AA0122, 0x0468D82A6621AF95);
    FoldIs(0x0C67BA2D86031EE5, 0xEFCCDDFF31B64B6D, 0x56FCF1E1C52F3E81, 0x0B9EC43AC5D82466);
    FoldIs(0x92CBEF1953370DDB, 0xCF50E38833935EB8, 0x2B7674799C695F68, 0x76E14889212121B3);
    FoldIs(0x218BA1864E1C3E3A, 0x1881B2F0009FE85E, 0xD70A3404ECC9694C, 0x033615F3854BC675);
    FoldIs(0xAEEF7C4845EFAC2D, 0x08B8407C9430958F, 0x2492CF59DC875E23, 0x05F564149677AD17);
    FoldIs(0x930466302A24D008, 0x53D52BABF9448362, 0x89F3117802ABBB10, 0x3024D8DF23FDF957);
  }

  lemma BlockHighKeyed()
    ensures FoldAt(BlockLanes(12), Secret136(), 61, 0) == 0x5D973CF0BD487EDB && FoldAt(BlockLanes(12), Secret136(), 61, 1) == 0xD43C21F76982AF39
    ensures FoldAt(BlockLanes(12), Secret136(), 61, 2) == 0x2167AB4D4AF0F334 && FoldAt(BlockLanes(12), Secret136(), 61, 3) == 0xB9D7C9A721564247
  {
    hide Secret136, WordAt, Xor64, Mul128Fold64;
    ShortKeysAt61();
    BlockMergeSteps();
    BlockMergeFolds();
  }

  lemma BlockHighMerged()
    ensures MergedFrom(BlockLanes(12), Secret136(), 61, 0x7E99B8DF43DECF30) == 0x2585315EB606B554
  {
    hide BlockLanes, Secret136, FoldAt, Add64, Mul64, XorShr64;
    BlockHighKeyed();
    BlockMergeSums();
  }

  /** Of 641 zeros, with a secret of 136 bytes. */
  lemma BlockAnswer()
    ensures Hash(S64.Width64(), LaneKernel(), WithSecret(Secret136()), Zeros(641)) == 0x20661147360FACA9
    ensures Hash(S128.Width128(), LaneKernel(), WithSecret(Secret136()), Zeros(641)) == Hash128(0x20661147360FACA9, 0x2585315EB606B554)
  {
    hide BlockLanes, Secret136, Zeros, LongAcc, Hash, MergedFrom, Mul64, LengthWord64, S128.Complement, S64.Width64, S128.Width128;
    BlockLong();
    LongHash64(LaneKernel(), WithSecret(Secret136()), Zeros(641), BlockLanes(12));
    LongHash128(LaneKernel(), WithSecret(Secret136()), Zeros(641), BlockLanes(12));
    Length641();
    BlockMergeSums();
    BlockLowMerged();
    BlockHighMerged();
  }
}
