/** The invertible steps that the hashes are built from, each with what undoes it. */
module Mixing {
  import opened Words

  function Mul32(x: bv32, p: bv32): bv32 { x * p }
  function Mul64(x: bv64, p: bv64): bv64 { x * p }
  function Xor32(x: bv32, y: bv32): bv32 { x ^ y }
  function Xor64(x: bv64, y: bv64): bv64 { x ^ y }
  function Add32(x: bv32, y: bv32): bv32 { x + y }
  function Add64(x: bv64, y: bv64): bv64 { x + y }
  function Sub32(x: bv32, y: bv32): bv32 { x - y }
  function Sub64(x: bv64, y: bv64): bv64 { x - y }

  function XorShr32(x: bv32, n: bv6): bv32
    requires n <= 32
  {
    x ^ (x >> n)
  }

  function UnXorShr32(y: bv32, n: bv6): bv32
    requires n <= 32
  {
    y ^ (y >> n) ^ (y >> n >> n)
  }

  function XorShr64(x: bv64, n: bv7): bv64
    requires n <= 64
  {
    x ^ (x >> n)
  }

  function UnXorShr64(y: bv64, n: bv7): bv64
    requires n <= 64
  {
    y ^ (y >> n) ^ (y >> n >> n)
  }

  lemma XorUndone32(x: bv32, y: bv32)
    ensures Xor32(Xor32(x, y), y) == x && Xor32(x, y) == Xor32(y, x)
  {
    assert Xor32(x ^ y, y) == x;
  }

  lemma AddUndone32(x: bv32, y: bv32)
    ensures Sub32(Add32(x, y), y) == x && Add32(Sub32(x, y), y) == x
  {
    assert Sub32(x + y, y) == x;
    assert Add32(x - y, y) == x;
  }

  lemma AddSwaps32(x: bv32, y: bv32)
    ensures Add32(x, y) == Add32(y, x)
  {
  }

  lemma XorUndone64(x: bv64, y: bv64)
    ensures Xor64(Xor64(x, y), y) == x && Xor64(x, y) == Xor64(y, x)
  {
    assert Xor64(x ^ y, y) == x;
  }

  lemma AddUndone64(x: bv64, y: bv64)
    ensures Sub64(Add64(x, y), y) == x && Add64(Sub64(x, y), y) == x
  {
    assert Sub64(x + y, y) == x;
    assert Add64(x - y, y) == x;
  }

  lemma AddSwaps64(x: bv64, y: bv64)
    ensures Add64(x, y) == Add64(y, x)
  {
  }

  lemma XorShr32By13(x: bv32)
    ensures UnXorShr32(XorShr32(x, 13), 13) == x && XorShr32(UnXorShr32(x, 13), 13) == x
  {
    assert UnXorShr32(x ^ (x >> 13), 13) == x;
    assert XorShr32(x ^ (x >> 13) ^ (x >> 13 >> 13), 13) == x;
  }

  lemma XorShr32By15(x: bv32)
    ensures UnXorShr32(XorShr32(x, 15), 15) == x && XorShr32(UnXorShr32(x, 15), 15) == x
  {
    assert UnXorShr32(x ^ (x >> 15), 15) == x;
    assert XorShr32(x ^ (x >> 15) ^ (x >> 15 >> 15), 15) == x;
  }

  lemma XorShr32By16(x: bv32)
    ensures UnXorShr32(XorShr32(x, 16), 16) == x && XorShr32(UnXorShr32(x, 16), 16) == x
  {
    assert UnXorShr32(x ^ (x >> 16), 16) == x;
    assert XorShr32(x ^ (x >> 16) ^ (x >> 16 >> 16), 16) == x;
  }

  lemma XorShr64By28(x: bv64)
    ensures UnXorShr64(XorShr64(x, 28), 28) == x && XorShr64(UnXorShr64(x, 28), 28) == x
  {
    assert UnXorShr64(x ^ (x >> 28), 28) == x;
    assert XorShr64(x ^ (x >> 28) ^ (x >> 28 >> 28), 28) == x;
  }

  lemma XorShr64By29(x: bv64)
    ensures UnXorShr64(XorShr64(x, 29), 29) == x && XorShr64(UnXorShr64(x, 29), 29) == x
  {
    assert UnXorShr64(x ^ (x >> 29), 29) == x;
    assert XorShr64(x ^ (x >> 29) ^ (x >> 29 >> 29), 29) == x;
  }

  lemma XorShr64By32(x: bv64)
    ensures UnXorShr64(XorShr64(x, 32), 32) == x && XorShr64(UnXorShr64(x, 32), 32) == x
  {
    assert UnXorShr64(x ^ (x >> 32), 32) == x;
    assert XorShr64(x ^ (x >> 32) ^ (x >> 32 >> 32), 32) == x;
  }

  lemma XorShr64By33(x: bv64)
    ensures UnXorShr64(XorShr64(x, 33), 33) == x && XorShr64(UnXorShr64(x, 33), 33) == x
  {
    assert UnXorShr64(x ^ (x >> 33), 33) == x;
    assert XorShr64(x ^ (x >> 33) ^ (x >> 33 >> 33), 33) == x;
  }

  lemma XorShr64By35(x: bv64)
    ensures UnXorShr64(XorShr64(x, 35), 35) == x && XorShr64(UnXorShr64(x, 35), 35) == x
  {
    assert UnXorShr64(x ^ (x >> 35), 35) == x;
    assert XorShr64(x ^ (x >> 35) ^ (x >> 35 >> 35), 35) == x;
  }

  lemma XorShr64By37(x: bv64)
    ensures UnXorShr64(XorShr64(x, 37), 37) == x && XorShr64(UnXorShr64(x, 37), 37) == x
  {
    assert UnXorShr64(x ^ (x >> 37), 37) == x;
    assert XorShr64(x ^ (x >> 37) ^ (x >> 37 >> 37), 37) == x;
  }

  lemma Rotl32By1(x: bv32)
    ensures Rotl32(Rotl32(x, 1), 31) == x && Rotl32(Rotl32(x, 31), 1) == x
  {
    assert Rotl32((x << 1) | (x >> 31), 31) == x;
    assert Rotl32((x << 31) | (x >> 1), 1) == x;
  }

  lemma Rotl32By7(x: bv32)
    ensures Rotl32(Rotl32(x, 7), 25) == x && Rotl32(Rotl32(x, 25), 7) == x
  {
    assert Rotl32((x << 7) | (x >> 25), 25) == x;
    assert Rotl32((x << 25) | (x >> 7), 7) == x;
  }

  lemma Rotl32By11(x: bv32)
    ensures Rotl32(Rotl32(x, 11), 21) == x && Rotl32(Rotl32(x, 21), 11) == x
  {
    assert Rotl32((x << 11) | (x >> 21), 21) == x;
    assert Rotl32((x << 21) | (x >> 11), 11) == x;
  }

  lemma Rotl32By12(x: bv32)
    ensures Rotl32(Rotl32(x, 12), 20) == x && Rotl32(Rotl32(x, 20), 12) == x
  {
    assert Rotl32((x << 12) | (x >> 20), 20) == x;
    assert Rotl32((x << 20) | (x >> 12), 12) == x;
  }

  lemma Rotl32By13(x: bv32)
    ensures Rotl32(Rotl32(x, 13), 19) == x && Rotl32(Rotl32(x, 19), 13) == x
  {
    assert Rotl32((x << 13) | (x >> 19), 19) == x;
    assert Rotl32((x << 19) | (x >> 13), 13) == x;
  }

  lemma Rotl32By15(x: bv32)
    ensures Rotl32(Rotl32(x, 15), 17) == x && Rotl32(Rotl32(x, 17), 15) == x
  {
    assert Rotl32((x << 15) | (x >> 17), 17) == x;
    assert Rotl32((x << 17) | (x >> 15), 15) == x;
  }

  lemma Rotl32By16(x: bv32)
    ensures Rotl32(Rotl32(x, 16), 16) == x
  {
    assert Rotl32((x << 16) | (x >> 16), 16) == x;
  }

  lemma Rotl32By17(x: bv32)
    ensures Rotl32(Rotl32(x, 17), 15) == x && Rotl32(Rotl32(x, 15), 17) == x
  {
    assert Rotl32((x << 17) | (x >> 15), 15) == x;
    assert Rotl32((x << 15) | (x >> 17), 17) == x;
  }

  lemma Rotl32By18(x: bv32)
    ensures Rotl32(Rotl32(x, 18), 14) == x && Rotl32(Rotl32(x, 14), 18) == x
  {
    assert Rotl32((x << 18) | (x >> 14), 14) == x;
    assert Rotl32((x << 14) | (x >> 18), 18) == x;
  }

  lemma Rotl32By19(x: bv32)
    ensures Rotl32(Rotl32(x, 19), 13) == x && Rotl32(Rotl32(x, 13), 19) == x
  {
    assert Rotl32((x << 19) | (x >> 13), 13) == x;
    assert Rotl32((x << 13) | (x >> 19), 19) == x;
  }

  lemma Rotl64By11(x: bv64)
    ensures Rotl64(Rotl64(x, 11), 53) == x && Rotl64(Rotl64(x, 53), 11) == x
  {
    assert Rotl64((x << 11) | (x >> 53), 53) == x;
    assert Rotl64((x << 53) | (x >> 11), 11) == x;
  }

  lemma Rotl64By23(x: bv64)
    ensures Rotl64(Rotl64(x, 23), 41) == x && Rotl64(Rotl64(x, 41), 23) == x
  {
    assert Rotl64((x << 23) | (x >> 41), 41) == x;
    assert Rotl64((x << 41) | (x >> 23), 23) == x;
  }

  lemma Rotl64By27(x: bv64)
    ensures Rotl64(Rotl64(x, 27), 37) == x && Rotl64(Rotl64(x, 37), 27) == x
  {
    assert Rotl64((x << 27) | (x >> 37), 37) == x;
    assert Rotl64((x << 37) | (x >> 27), 27) == x;
  }

  lemma Rotl64By31(x: bv64)
    ensures Rotl64(Rotl64(x, 31), 33) == x && Rotl64(Rotl64(x, 33), 31) == x
  {
    assert Rotl64((x << 31) | (x >> 33), 33) == x;
    assert Rotl64((x << 33) | (x >> 31), 31) == x;
  }

  lemma Rotl64By33(x: bv64)
    ensures Rotl64(Rotl64(x, 33), 31) == x && Rotl64(Rotl64(x, 31), 33) == x
  {
    assert Rotl64((x << 33) | (x >> 31), 31) == x;
    assert Rotl64((x << 31) | (x >> 33), 33) == x;
  }

  lemma Mul32ByPrime1(x: bv32)
    ensures Mul32(Mul32(x, 0x9E3779B1), 0x0E8B2F51) == x && Mul32(Mul32(x, 0x0E8B2F51), 0x9E3779B1) == x
  {
    assert Mul32(x * 0x9E3779B1, 0x0E8B2F51) == x && Mul32(x * 0x0E8B2F51, 0x9E3779B1) == x;
  }

  lemma Mul32ByPrime2(x: bv32)
    ensures Mul32(Mul32(x, 0x85EBCA77), 0xB6C92F47) == x && Mul32(Mul32(x, 0xB6C92F47), 0x85EBCA77) == x
  {
    assert Mul32(x * 0x85EBCA77, 0xB6C92F47) == x && Mul32(x * 0xB6C92F47, 0x85EBCA77) == x;
  }

  lemma Mul32ByPrime3(x: bv32)
    ensures Mul32(Mul32(x, 0xC2B2AE3D), 0xA89ED915) == x && Mul32(Mul32(x, 0xA89ED915), 0xC2B2AE3D) == x
  {
    assert Mul32(x * 0xC2B2AE3D, 0xA89ED915) == x && Mul32(x * 0xA89ED915, 0xC2B2AE3D) == x;
  }

  lemma Mul32ByPrime4(x: bv32)
    ensures Mul32(Mul32(x, 0x27D4EB2F), 0xA0FE3BCF) == x && Mul32(Mul32(x, 0xA0FE3BCF), 0x27D4EB2F) == x
  {
    assert Mul32(x * 0x27D4EB2F, 0xA0FE3BCF) == x && Mul32(x * 0xA0FE3BCF, 0x27D4EB2F) == x;
  }

  lemma Mul32ByPrime5(x: bv32)
    ensures Mul32(Mul32(x, 0x165667B1), 0xAE398151) == x && Mul32(Mul32(x, 0xAE398151), 0x165667B1) == x
  {
    assert Mul32(x * 0x165667B1, 0xAE398151) == x && Mul32(x * 0xAE398151, 0x165667B1) == x;
  }

  lemma Mul32Bycc9e2d51(x: bv32)
    ensures Mul32(Mul32(x, 0xCC9E2D51), 0xDEE13BB1) == x && Mul32(Mul32(x, 0xDEE13BB1), 0xCC9E2D51) == x
  {
    assert Mul32(x * 0xCC9E2D51, 0xDEE13BB1) == x && Mul32(x * 0xDEE13BB1, 0xCC9E2D51) == x;
  }

  lemma Mul32By1b873593(x: bv32)
    ensures Mul32(Mul32(x, 0x1B873593), 0x56ED309B) == x && Mul32(Mul32(x, 0x56ED309B), 0x1B873593) == x
  {
    assert Mul32(x * 0x1B873593, 0x56ED309B) == x && Mul32(x * 0x56ED309B, 0x1B873593) == x;
  }

  lemma Mul32By85ebca6b(x: bv32)
    ensures Mul32(Mul32(x, 0x85EBCA6B), 0xA5CB9243) == x && Mul32(Mul32(x, 0xA5CB9243), 0x85EBCA6B) == x
  {
    assert Mul32(x * 0x85EBCA6B, 0xA5CB9243) == x && Mul32(x * 0xA5CB9243, 0x85EBCA6B) == x;
  }

  lemma Mul32Byc2b2ae35(x: bv32)
    ensures Mul32(Mul32(x, 0xC2B2AE35), 0x7ED1B41D) == x && Mul32(Mul32(x, 0x7ED1B41D), 0xC2B2AE35) == x
  {
    assert Mul32(x * 0xC2B2AE35, 0x7ED1B41D) == x && Mul32(x * 0x7ED1B41D, 0xC2B2AE35) == x;
  }

  lemma Mul32By5(x: bv32)
    ensures Mul32(Mul32(x, 5), 0xCCCCCCCD) == x && Mul32(Mul32(x, 0xCCCCCCCD), 5) == x
  {
    assert Mul32(x * 5, 0xCCCCCCCD) == x && Mul32(x * 0xCCCCCCCD, 5) == x;
  }

  lemma Mul32By239b961b(x: bv32)
    ensures Mul32(Mul32(x, 0x239B961B), 0x89C95413) == x && Mul32(Mul32(x, 0x89C95413), 0x239B961B) == x
  {
    assert Mul32(x * 0x239B961B, 0x89C95413) == x && Mul32(x * 0x89C95413, 0x239B961B) == x;
  }

  lemma Mul32Byab0e9789(x: bv32)
    ensures Mul32(Mul32(x, 0xAB0E9789), 0xDF130EB9) == x && Mul32(Mul32(x, 0xDF130EB9), 0xAB0E9789) == x
  {
    assert Mul32(x * 0xAB0E9789, 0xDF130EB9) == x && Mul32(x * 0xDF130EB9, 0xAB0E9789) == x;
  }

  lemma Mul32By38b34ae5(x: bv32)
    ensures Mul32(Mul32(x, 0x38B34AE5), 0x747862ED) == x && Mul32(Mul32(x, 0x747862ED), 0x38B34AE5) == x
  {
    assert Mul32(x * 0x38B34AE5, 0x747862ED) == x && Mul32(x * 0x747862ED, 0x38B34AE5) == x;
  }

  lemma Mul32Bya1e38b93(x: bv32)
    ensures Mul32(Mul32(x, 0xA1E38B93), 0x58D64A9B) == x && Mul32(Mul32(x, 0x58D64A9B), 0xA1E38B93) == x
  {
    assert Mul32(x * 0xA1E38B93, 0x58D64A9B) == x && Mul32(x * 0x58D64A9B, 0xA1E38B93) == x;
  }

  lemma Mul64ByPrime1(x: bv64)
    ensures Mul64(Mul64(x, 0x9E3779B185EBCA87), 0x0887493432BADB37) == x && Mul64(Mul64(x, 0x0887493432BADB37), 0x9E3779B185EBCA87) == x
  {
    assert Mul64(x * 0x9E3779B185EBCA87, 0x0887493432BADB37) == x && Mul64(x * 0x0887493432BADB37, 0x9E3779B185EBCA87) == x;
  }

  lemma Mul64ByPrime2(x: bv64)
    ensures Mul64(Mul64(x, 0xC2B2AE3D27D4EB4F), 0x0BA79078168D4BAF) == x && Mul64(Mul64(x, 0x0BA79078168D4BAF), 0xC2B2AE3D27D4EB4F) == x
  {
    assert Mul64(x * 0xC2B2AE3D27D4EB4F, 0x0BA79078168D4BAF) == x && Mul64(x * 0x0BA79078168D4BAF, 0xC2B2AE3D27D4EB4F) == x;
  }

  lemma Mul64ByPrime3(x: bv64)
    ensures Mul64(Mul64(x, 0x165667B19E3779F9), 0xE9E9F4C41D6DF849) == x && Mul64(Mul64(x, 0xE9E9F4C41D6DF849), 0x165667B19E3779F9) == x
  {
    assert Mul64(x * 0x165667B19E3779F9, 0xE9E9F4C41D6DF849) == x && Mul64(x * 0xE9E9F4C41D6DF849, 0x165667B19E3779F9) == x;
  }

  lemma Mul64ByPrime5(x: bv64)
    ensures Mul64(Mul64(x, 0x27D4EB2F165667C5), 0xC592C09FDFBA7F0D) == x && Mul64(Mul64(x, 0xC592C09FDFBA7F0D), 0x27D4EB2F165667C5) == x
  {
    assert Mul64(x * 0x27D4EB2F165667C5, 0xC592C09FDFBA7F0D) == x && Mul64(x * 0xC592C09FDFBA7F0D, 0x27D4EB2F165667C5) == x;
  }

  lemma Mul64ByMx2(x: bv64)
    ensures Mul64(Mul64(x, 0x9FB21C651E98DF25), 0x02AB9C720D1024AD) == x && Mul64(Mul64(x, 0x02AB9C720D1024AD), 0x9FB21C651E98DF25) == x
  {
    assert Mul64(x * 0x9FB21C651E98DF25, 0x02AB9C720D1024AD) == x && Mul64(x * 0x02AB9C720D1024AD, 0x9FB21C651E98DF25) == x;
  }

  lemma Mul64By87c37b91114253d5(x: bv64)
    ensures Mul64(Mul64(x, 0x87C37B91114253D5), 0xA98409E882CE4D7D) == x && Mul64(Mul64(x, 0xA98409E882CE4D7D), 0x87C37B91114253D5) == x
  {
    assert Mul64(x * 0x87C37B91114253D5, 0xA98409E882CE4D7D) == x && Mul64(x * 0xA98409E882CE4D7D, 0x87C37B91114253D5) == x;
  }

  lemma Mul64By4cf5ad432745937f(x: bv64)
    ensures Mul64(Mul64(x, 0x4CF5AD432745937F), 0xA81E14EDD9DE2C7F) == x && Mul64(Mul64(x, 0xA81E14EDD9DE2C7F), 0x4CF5AD432745937F) == x
  {
    assert Mul64(x * 0x4CF5AD432745937F, 0xA81E14EDD9DE2C7F) == x && Mul64(x * 0xA81E14EDD9DE2C7F, 0x4CF5AD432745937F) == x;
  }

  lemma Mul64Byff51afd7ed558ccd(x: bv64)
    ensures Mul64(Mul64(x, 0xFF51AFD7ED558CCD), 0x4F74430C22A54005) == x && Mul64(Mul64(x, 0x4F74430C22A54005), 0xFF51AFD7ED558CCD) == x
  {
    assert Mul64(x * 0xFF51AFD7ED558CCD, 0x4F74430C22A54005) == x && Mul64(x * 0x4F74430C22A54005, 0xFF51AFD7ED558CCD) == x;
  }

  lemma Mul64Byc4ceb9fe1a85ec53(x: bv64)
    ensures Mul64(Mul64(x, 0xC4CEB9FE1A85EC53), 0x9CB4B2F8129337DB) == x && Mul64(Mul64(x, 0x9CB4B2F8129337DB), 0xC4CEB9FE1A85EC53) == x
  {
    assert Mul64(x * 0xC4CEB9FE1A85EC53, 0x9CB4B2F8129337DB) == x && Mul64(x * 0x9CB4B2F8129337DB, 0xC4CEB9FE1A85EC53) == x;
  }

  lemma Mul64By5(x: bv64)
    ensures Mul64(Mul64(x, 5), 0xCCCCCCCCCCCCCCCD) == x && Mul64(Mul64(x, 0xCCCCCCCCCCCCCCCD), 5) == x
  {
    assert Mul64(x * 5, 0xCCCCCCCCCCCCCCCD) == x && Mul64(x * 0xCCCCCCCCCCCCCCCD, 5) == x;
  }
}
