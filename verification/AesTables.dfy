/** The substitution tables of the software AES, packed a row of sixteen bytes to a word, first byte
    on top, and what they are in the field GF(2^8) of FIPS 197. */
module AesTables {

  import opened Words

  function SboxRow(i: Byte): bv128 {
    if i == 0 then 0x637c777bf26b6fc5_3001672bfed7ab76
    else if i == 1 then 0xca82c97dfa5947f0_add4a2af9ca472c0
    else if i == 2 then 0xb7fd9326363ff7cc_34a5e5f171d83115
    else if i == 3 then 0x04c723c31896059a_071280e2eb27b275
    else if i == 4 then 0x09832c1a1b6e5aa0_523bd6b329e32f84
    else if i == 5 then 0x53d100ed20fcb15b_6acbbe394a4c58cf
    else if i == 6 then 0xd0efaafb434d3385_45f9027f503c9fa8
    else if i == 7 then 0x51a3408f929d38f5_bcb6da2110fff3d2
    else if i == 8 then 0xcd0c13ec5f974417_c4a77e3d645d1973
    else if i == 9 then 0x60814fdc222a9088_46eeb814de5e0bdb
    else if i == 10 then 0xe0323a0a4906245c_c2d3ac629195e479
    else if i == 11 then 0xe7c8376d8dd54ea9_6c56f4ea657aae08
    else if i == 12 then 0xba78252e1ca6b4c6_e8dd741f4bbd8b8a
    else if i == 13 then 0x703eb5664803f60e_613557b986c11d9e
    else if i == 14 then 0xe1f8981169d98e94_9b1e87e9ce5528df
    else 0x8ca1890dbfe64268_41992d0fb054bb16
  }

  function RsboxRow(i: Byte): bv128 {
    if i == 0 then 0x52096ad53036a538_bf40a39e81f3d7fb
    else if i == 1 then 0x7ce339829b2fff87_348e4344c4dee9cb
    else if i == 2 then 0x547b9432a6c2233d_ee4c950b42fac34e
    else if i == 3 then 0x082ea16628d924b2_765ba2496d8bd125
    else if i == 4 then 0x72f8f66486689816_d4a45ccc5d65b692
    else if i == 5 then 0x6c704850fdedb9da_5e154657a78d9d84
    else if i == 6 then 0x90d8ab008cbcd30a_f7e45805b8b34506
    else if i == 7 then 0xd02c1e8fca3f0f02_c1afbd0301138a6b
    else if i == 8 then 0x3a9111414f67dcea_97f2cfcef0b4e673
    else if i == 9 then 0x96ac7422e7ad3585_e2f937e81c75df6e
    else if i == 10 then 0x47f11a711d29c589_6fb7620eaa18be1b
    else if i == 11 then 0xfc563e4bc6d27920_9adbc0fe78cd5af4
    else if i == 12 then 0x1fdda8338807c731_b11210592780ec5f
    else if i == 13 then 0x60517fa919b54a0d_2de57a9f93c99cef
    else if i == 14 then 0xa0e03b4dae2af5b0_c8ebbb3c83539961
    else 0x172b047eba77d626_e169146355210c7d
  }

  /** Byte j of a row. */
  function Entry(row: bv128, j: Byte): Byte {
    ((row >> ((15 - (j & 15)) << 3)) & 0xFF) as bv8
  }

  function Sbox(b: Byte): Byte { Entry(SboxRow(b >> 4), b & 15) }
  function Rsbox(b: Byte): Byte { Entry(RsboxRow(b >> 4), b & 15) }

  lemma SboxUndoneBelow(b: Byte)
    requires b < 0x80
    ensures Rsbox(Sbox(b)) == b
  {
  }

  lemma SboxUndoneAbove(b: Byte)
    requires b >= 0x80
    ensures Rsbox(Sbox(b)) == b
  {
  }

  lemma RsboxUndoneBelow(b: Byte)
    requires b < 0x80
    ensures Sbox(Rsbox(b)) == b
  {
  }

  lemma RsboxUndoneAbove(b: Byte)
    requires b >= 0x80
    ensures Sbox(Rsbox(b)) == b
  {
  }

  /** The two tables are each other's inverse. */
  lemma TablesInvert(b: Byte)
    ensures Rsbox(Sbox(b)) == b && Sbox(Rsbox(b)) == b
  {
    hide Sbox, Rsbox;
    if b < 0x80 {
      SboxUndoneBelow(b);
      RsboxUndoneBelow(b);
    } else {
      SboxUndoneAbove(b);
      RsboxUndoneAbove(b);
    }
  }

  // ---- The field ----

  function Xor8(x: Byte, y: Byte): Byte { x ^ y }

  /** Multiplication by x modulo x^8 + x^4 + x^3 + x + 1. */
  function Xt(x: Byte): Byte { (x << 1) ^ ((x >> 7) * 0x1b) }

  /** The field product, one bit of the second factor after the other. */
  function Times(x: Byte, y: Byte): Byte {
    var x1 := Xt(x);
    var x2 := Xt(x1);
    var x3 := Xt(x2);
    var x4 := Xt(x3);
    var x5 := Xt(x4);
    var x6 := Xt(x5);
    var x7 := Xt(x6);
    ((y & 1) * x) ^ (((y >> 1) & 1) * x1) ^ (((y >> 2) & 1) * x2) ^ (((y >> 3) & 1) * x3)
    ^ (((y >> 4) & 1) * x4) ^ (((y >> 5) & 1) * x5) ^ (((y >> 6) & 1) * x6) ^ ((y >> 7) * x7)
  }

  function Rotl8(x: Byte, r: bv4): Byte
    requires 0 < r < 8
  {
    (x << r) | (x >> (8 - r))
  }

  /** The affine map of section 5.1.1 of FIPS 197. */
  function Affine(x: Byte): Byte {
    x ^ Rotl8(x, 1) ^ Rotl8(x, 2) ^ Rotl8(x, 3) ^ Rotl8(x, 4) ^ 0x63
  }

  function UnAffine(y: Byte): Byte {
    Rotl8(y, 1) ^ Rotl8(y, 3) ^ Rotl8(y, 6) ^ 0x05
  }

  lemma AffineUndone(x: Byte)
    ensures UnAffine(Affine(x)) == x && Affine(UnAffine(x)) == x
  {
  }

  /** The multiplicative inverse in the field, with 0 for 0. */
  function Inverse(b: Byte): Byte { UnAffine(Sbox(b)) }

  lemma InverseTimes(b: Byte)
    ensures Times(b, UnAffine(Sbox(b))) == if b == 0 then 0 else 1
    ensures b == 0 ==> UnAffine(Sbox(b)) == 0
  {
  }

  /** The table is the one FIPS 197 defines: the affine image of the multiplicative inverse. */
  lemma SboxIsAffineInverse(b: Byte)
    ensures Sbox(b) == Affine(Inverse(b))
    ensures if b == 0 then Inverse(b) == 0 else Times(b, Inverse(b)) == 1
  {
    hide Sbox, Affine, UnAffine, Times;
    AffineUndone(Sbox(b));
    InverseTimes(b);
  }
}
