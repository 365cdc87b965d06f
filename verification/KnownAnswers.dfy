/** Known answers of XXH32, XXH64 and MurmurHash3 for the pangram "The quick brown fox jumps over the lazy dog" and for shorter inputs. Each
    list of steps is a computation on literals; the functions of the hashes are unfolded over it. */
module KnownAnswers {
  import opened Leftover
  import opened Mixing
  import opened Words
  import BlockMixer
  import Murmur3x64_128
  import Murmur3x86_128
  import Murmur3x86_32
  import Xxh32
  import Xxh64

  /** Its words of four bytes, ten in all. */
  function Word4(i: nat): (s: Bytes)
    requires i < 10
    ensures |s| == 4
  {
    match i
    case 0 => [0x54, 0x68, 0x65, 0x20]
    case 1 => [0x71, 0x75, 0x69, 0x63]
    case 2 => [0x6B, 0x20, 0x62, 0x72]
    case 3 => [0x6F, 0x77, 0x6E, 0x20]
    case 4 => [0x66, 0x6F, 0x78, 0x20]
    case 5 => [0x6A, 0x75, 0x6D, 0x70]
    case 6 => [0x73, 0x20, 0x6F, 0x76]
    case 7 => [0x65, 0x72, 0x20, 0x74]
    case 8 => [0x68, 0x65, 0x20, 0x6C]
    case _ => [0x61, 0x7A, 0x79, 0x20]
  }

  const SEED32: bv32 := 0x9747B28C
  const SEED64: bv64 := 0x9E3779B185EBCA8D
  const LAST3: Bytes := [0x64, 0x6F, 0x67]

  function Word8(i: nat): (s: Bytes)
    requires i < 5
    ensures |s| == 8
  {
    Word4(2 * i) + Word4(2 * i + 1)
  }

  function Row(i: nat): (s: Bytes)
    requires i < 2
    ensures |s| == 16
  {
    Word8(2 * i) + Word8(2 * i + 1)
  }

  /** The pangram, 43 bytes. */
  function Fox(): (s: Bytes)
    ensures |s| == 43
  {
    Row(0) + (Row(1) + (Word8(4) + LAST3))
  }

  // ---- Words ----

  lemma Words4()
    ensures ReadLE32(Word4(0)) == 0x20656854
    ensures ReadLE32(Word4(1)) == 0x63697571
    ensures ReadLE32(Word4(2)) == 0x7262206B
    ensures ReadLE32(Word4(3)) == 0x206E776F
    ensures ReadLE32(Word4(4)) == 0x20786F66
    ensures ReadLE32(Word4(5)) == 0x706D756A
    ensures ReadLE32(Word4(6)) == 0x766F2073
    ensures ReadLE32(Word4(7)) == 0x74207265
    ensures ReadLE32(Word4(8)) == 0x6C206568
    ensures ReadLE32(Word4(9)) == 0x20797A61
  {
  }

  lemma Words8()
    ensures ReadLE64(Word8(0)) == 0x6369757120656854
    ensures ReadLE64(Word8(1)) == 0x206E776F7262206B
    ensures ReadLE64(Word8(2)) == 0x706D756A20786F66
    ensures ReadLE64(Word8(3)) == 0x74207265766F2073
    ensures ReadLE64(Word8(4)) == 0x20797A616C206568
  {
    assert Word8(0) == [0x54, 0x68, 0x65, 0x20, 0x71, 0x75, 0x69, 0x63];
    assert Word8(1) == [0x6B, 0x20, 0x62, 0x72, 0x6F, 0x77, 0x6E, 0x20];
    assert Word8(2) == [0x66, 0x6F, 0x78, 0x20, 0x6A, 0x75, 0x6D, 0x70];
    assert Word8(3) == [0x73, 0x20, 0x6F, 0x76, 0x65, 0x72, 0x20, 0x74];
    assert Word8(4) == [0x68, 0x65, 0x20, 0x6C, 0x61, 0x7A, 0x79, 0x20];
  }

  lemma Quarters(a: Bytes, b: Bytes, c: Bytes, d: Bytes)
    requires |a| == |b| == |c| == |d|
    ensures var (n, s) := (|a|, (a + b) + (c + d)); s[0..n] == a && s[n..2 * n] == b && s[2 * n..3 * n] == c && s[3 * n..4 * n] == d
  {
  }

  lemma Parts(a: Bytes, b: Bytes)
    ensures (a + b)[..|a|] == a && (a + b)[|a|..] == b
  {
  }

  lemma Length43()
    ensures LengthWord32(43) == 43
  {
  }

  lemma Length43Wide()
    ensures LengthWord64(43) == 43
  {
  }

  // ---- XXH32 ----

  lemma Init32()
    ensures Xxh32.InitAccs(0x9747B28C) == [0xBB6AF6B4, 0x1D337D03, 0x9747B28C, 0xF91038DB]
  {
  }

  lemma Steps32()
    ensures Mul32(0x20656854, 0x85EBCA77) == 0x7C91C70C && Add32(0xBB6AF6B4, 0x7C91C70C) == 0x37FCBDC0 && Rotl32(0x37FCBDC0, 13) == 0x97B806FF
    ensures Mul32(0x97B806FF, 0x9E3779B1) == 0xC4545D4F && Mul32(0x63697571, 0x85EBCA77) == 0xF06BC187 && Add32(0x1D337D03, 0xF06BC187) == 0x0D9F3E8A
    ensures Rotl32(0x0D9F3E8A, 13) == 0xE7D141B3 && Mul32(0xE7D141B3, 0x9E3779B1) == 0xC73107C3 && Mul32(0x7262206B, 0x85EBCA77) == 0xF26A7FBD
    ensures Add32(0x9747B28C, 0xF26A7FBD) == 0x89B23249 && Rotl32(0x89B23249, 13) == 0x46493136 && Mul32(0x46493136, 0x9E3779B1) == 0x17778C56
    ensures Mul32(0x206E776F, 0x85EBCA77) == 0x8B7C1A99 && Add32(0xF91038DB, 0x8B7C1A99) == 0x848C5374 && Rotl32(0x848C5374, 13) == 0x8A6E9091
    ensures Mul32(0x8A6E9091, 0x9E3779B1) == 0x85ED7D41
    ensures Mul32(0x20786F66, 0x85EBCA77) == 0x6084446A && Add32(0xC4545D4F, 0x6084446A) == 0x24D8A1B9 && Rotl32(0x24D8A1B9, 13) == 0x1437249B
    ensures Mul32(0x1437249B, 0x9E3779B1) == 0x91BA922B && Mul32(0x706D756A, 0x85EBCA77) == 0x7BD53846 && Add32(0xC73107C3, 0x7BD53846) == 0x43064009
    ensures Rotl32(0x43064009, 13) == 0xC8012860 && Mul32(0xC8012860, 0x9E3779B1) == 0xC1824A60 && Mul32(0x766F2073, 0x85EBCA77) == 0x45D3D375
    ensures Add32(0x17778C56, 0x45D3D375) == 0x5D4B5FCB && Rotl32(0x5D4B5FCB, 13) == 0x6BF96BA9 && Mul32(0x6BF96BA9, 0x9E3779B1) == 0xFAA550D9
    ensures Mul32(0x74207265, 0x85EBCA77) == 0x110FDEF3 && Add32(0x85ED7D41, 0x110FDEF3) == 0x96FD5C34 && Rotl32(0x96FD5C34, 13) == 0xAB8692DF
    ensures Mul32(0xAB8692DF, 0x9E3779B1) == 0x635FF32F
    ensures Rotl32(0x91BA922B, 1) == 0x23752457 && Rotl32(0xC1824A60, 7) == 0xC1253060 && Add32(0x23752457, 0xC1253060) == 0xE49A54B7
    ensures Rotl32(0xFAA550D9, 12) == 0x550D9FAA && Add32(0xE49A54B7, 0x550D9FAA) == 0x39A7F461 && Rotl32(0x635FF32F, 18) == 0xCCBD8D7F
    ensures Add32(0x39A7F461, 0xCCBD8D7F) == 0x066581E0 && Add32(0x066581E0, 0x0000002B) == 0x0665820B
  {
  }

  lemma Stripe32At0()
    ensures Xxh32.StripeRound([0xBB6AF6B4, 0x1D337D03, 0x9747B28C, 0xF91038DB], Row(0)) == [0xC4545D4F, 0xC73107C3, 0x17778C56, 0x85ED7D41]
  {
    hide Mul32, Add32, Rotl32, ReadLE32, Word4;
    Words4();
    Steps32();
    Quarters(Word4(0), Word4(1), Word4(2), Word4(3));
  }

  lemma Stripe32At1()
    ensures Xxh32.StripeRound([0xC4545D4F, 0xC73107C3, 0x17778C56, 0x85ED7D41], Row(1)) == [0x91BA922B, 0xC1824A60, 0xFAA550D9, 0x635FF32F]
  {
    hide Mul32, Add32, Rotl32, ReadLE32, Word4;
    Words4();
    Steps32();
    Quarters(Word4(4), Word4(5), Word4(6), Word4(7));
  }

  lemma Unfolded32()
    ensures Xxh32.Consumed(Xxh32.InitAccs(SEED32), Fox()) == Xxh32.StripeRound(Xxh32.StripeRound(Xxh32.InitAccs(SEED32), Row(0)), Row(1))
    ensures Rest(16, Fox()) == Word8(4) + LAST3
  {
    hide Xxh32.InitAccs, Xxh32.StripeRound, Row, Word8;
    Parts(Row(0), Row(1) + (Word8(4) + LAST3));
    Parts(Row(1), Word8(4) + LAST3);
  }

  lemma Body32()
    ensures Xxh32.Body(Fox(), SEED32) == 0x0665820B
  {
    hide Mul32, Add32, Rotl32, LengthWord32, Row, Fox, Xxh32.InitAccs, Xxh32.StripeRound, Xxh32.Consumed;
    Unfolded32();
    Init32();
    Stripe32At0();
    Stripe32At1();
    Steps32();
    Length43();
  }

  lemma TailSteps32()
    ensures Mul32(0x6C206568, 0xC2B2AE3D) == 0x1AF4D9C8 && Add32(0x0665820B, 0x1AF4D9C8) == 0x215A5BD3 && Rotl32(0x215A5BD3, 17) == 0xB7A642B4
    ensures Mul32(0xB7A642B4, 0x27D4EB2F) == 0xFFD17B0C && Mul32(0x20797A61, 0xC2B2AE3D) == 0xE792171D && Add32(0xFFD17B0C, 0xE792171D) == 0xE7639229
    ensures Rotl32(0xE7639229, 17) == 0x2453CEC7 && Mul32(0x2453CEC7, 0x27D4EB2F) == 0x27FFA389 && Mul32(0x00000064, 0x165667B1) == 0xB9C08124
    ensures Add32(0x27FFA389, 0xB9C08124) == 0xE1C024AD && Rotl32(0xE1C024AD, 11) == 0x01256F0E && Mul32(0x01256F0E, 0x9E3779B1) == 0xFC6166AE
    ensures Mul32(0x0000006F, 0x165667B1) == 0xAF76F5BF && Add32(0xFC6166AE, 0xAF76F5BF) == 0xABD85C6D && Rotl32(0xABD85C6D, 11) == 0xC2E36D5E
    ensures Mul32(0xC2E36D5E, 0x9E3779B1) == 0xC1220BFE && Mul32(0x00000067, 0x165667B1) == 0xFCC3B837 && Add32(0xC1220BFE, 0xFCC3B837) == 0xBDE5C435
    ensures Rotl32(0xBDE5C435, 11) == 0x2E21ADEF && Mul32(0x2E21ADEF, 0x9E3779B1) == 0xB0D8393F
    ensures XorShr32(0xB0D8393F, 15) == 0xB0D9588F && Mul32(0xB0D9588F, 0x85EBCA77) == 0x4B2E0079 && XorShr32(0x4B2E0079, 13) == 0x4B2C5909
    ensures Mul32(0x4B2C5909, 0xC2B2AE3D) == 0xC8575525 && XorShr32(0xC8575525, 16) == 0xC8579D72
  {
  }

  lemma LastBytes()
    ensures (0x64 as Byte) as bv32 == 0x64 && (0x6F as Byte) as bv32 == 0x6F && (0x67 as Byte) as bv32 == 0x67
    ensures (0x64 as Byte) as bv64 == 0x64 && (0x6F as Byte) as bv64 == 0x6F && (0x67 as Byte) as bv64 == 0x67
  {
  }

  lemma TailBytes32(h: bv32)
    ensures Xxh32.Tail(h, LAST3) == Xxh32.Process1(Xxh32.Process1(Xxh32.Process1(h, 0x64), 0x6F), 0x67)
  {
    hide Xxh32.Process1, Xxh32.Process4;
    assert LAST3[1..] == [0x6F, 0x67] && LAST3[1..][1..] == [0x67] && LAST3[1..][1..][1..] == [];
  }

  lemma TailWords32(h: bv32)
    ensures Xxh32.Tail(h, Word8(4) + LAST3) == Xxh32.Tail(Xxh32.Process4(Xxh32.Process4(h, ReadLE32(Word4(8))), ReadLE32(Word4(9))), LAST3)
  {
    hide Xxh32.Process1, Xxh32.Process4, ReadLE32, Word4;
    assert (Word4(8) + Word4(9)) + LAST3 == Word4(8) + (Word4(9) + LAST3);
    Parts(Word4(8), Word4(9) + LAST3);
    Parts(Word4(9), LAST3);
  }

  lemma Tail32()
    ensures Xxh32.Tail(0x0665820B, Word8(4) + LAST3) == 0xB0D8393F
  {
    hide Mul32, Add32, Rotl32, ReadLE32, Word8, Word4, Xxh32.Tail;
    TailWords32(0x0665820B);
    TailBytes32(Xxh32.Process4(Xxh32.Process4(0x0665820B, ReadLE32(Word4(8))), ReadLE32(Word4(9))));
    Words4();
    LastBytes();
    TailSteps32();
  }

  /** XXH32 of the pangram: two stripes, two words and three bytes. */
  lemma Xxh32Answer()
    ensures Xxh32.Hash(Fox(), SEED32) == 0xC8579D72
  {
    hide Mul32, XorShr32, Fox, Word8, Rest, Xxh32.Body, Xxh32.Tail;
    Unfolded32();
    Body32();
    Tail32();
    TailSteps32();
  }

  lemma ShortSteps32()
    ensures Add32(0x9747B28C, 0x165667B1) == 0xAD9E1A3D && Add32(0xAD9E1A3D, 0x00000003) == 0xAD9E1A40 && Mul32(0x00000061, 0x165667B1) == 0x76BD4A11
    ensures Add32(0xAD9E1A40, 0x76BD4A11) == 0x245B6451 && Rotl32(0x245B6451, 11) == 0xDB228922 && Mul32(0xDB228922, 0x9E3779B1) == 0x47FFE282
    ensures Mul32(0x00000062, 0x165667B1) == 0x8D13B1C2 && Add32(0x47FFE282, 0x8D13B1C2) == 0xD5139444 && Rotl32(0xD5139444, 11) == 0x9CA226A8
    ensures Mul32(0x9CA226A8, 0x9E3779B1) == 0xEE7A2228 && Mul32(0x00000063, 0x165667B1) == 0xA36A1973 && Add32(0xEE7A2228, 0xA36A1973) == 0x91E43B9B
    ensures Rotl32(0x91E43B9B, 11) == 0x21DCDC8F && Mul32(0x21DCDC8F, 0x9E3779B1) == 0x72AD15DF && XorShr32(0x72AD15DF, 15) == 0x72ADF085
    ensures Mul32(0x72ADF085, 0x85EBCA77) == 0x71BABFD3 && XorShr32(0x71BABFD3, 13) == 0x71B93206 && Mul32(0x71B93206, 0xC2B2AE3D) == 0x4D4CFF6E
    ensures XorShr32(0x4D4CFF6E, 16) == 0x4D4CB222
  {
  }

  lemma LettersWide()
    ensures (0x61 as Byte) as bv32 == 0x61 && (0x62 as Byte) as bv32 == 0x62 && (0x63 as Byte) as bv32 == 0x63
    ensures (0x61 as Byte) as bv64 == 0x61 && (0x62 as Byte) as bv64 == 0x62 && (0x63 as Byte) as bv64 == 0x63
  {
  }

  lemma Length3()
    ensures LengthWord32(3) == 3
  {
  }

  lemma Length3Wide()
    ensures LengthWord64(3) == 3
  {
  }

  const ABC: Bytes := [0x61, 0x62, 0x63]

  lemma TailAbc32(h: bv32)
    ensures Xxh32.Tail(h, ABC) == Xxh32.Process1(Xxh32.Process1(Xxh32.Process1(h, 0x61), 0x62), 0x63)
  {
    hide Xxh32.Process1, Xxh32.Process4;
    assert ABC[1..] == [0x62, 0x63] && ABC[1..][1..] == [0x63] && ABC[1..][1..][1..] == [];
  }

  /** And of "abc", which is too short for the lanes. */
  lemma Xxh32AnswerAbc()
    ensures Xxh32.Hash(ABC, SEED32) == 0x4D4CB222
  {
    hide Mul32, Add32, Rotl32, XorShr32, LengthWord32, Xxh32.Tail;
    TailAbc32(Xxh32.Body(ABC, SEED32));
    Length3();
    LettersWide();
    ShortSteps32();
  }

  // ---- XXH64 ----

  lemma Init64()
    ensures Xxh64.InitAccs(SEED64) == [0xFF21A1A033AC8063, 0x60EA27EEADC0B5DC, 0x9E3779B185EBCA8D, 0x0000000000000006]
  {
  }

  lemma Steps64()
    ensures Mul64(0x6369757120656854, 0xC2B2AE3D27D4EB4F) == 0xD173518947A04DEC && Add64(0xFF21A1A033AC8063, 0xD173518947A04DEC) == 0xD094F3297B4CCE4F
    ensures Rotl64(0xD094F3297B4CCE4F, 31) == 0xBDA66727E84A7994 && Mul64(0xBDA66727E84A7994, 0x9E3779B185EBCA87) == 0x0337D431C210E50C
    ensures Mul64(0x206E776F7262206B, 0xC2B2AE3D27D4EB4F) == 0xE042491685A63A05 && Add64(0x60EA27EEADC0B5DC, 0xE042491685A63A05) == 0x412C71053366EFE1
    ensures Rotl64(0x412C71053366EFE1, 31) == 0x99B377F0A0963882 && Mul64(0x99B377F0A0963882, 0x9E3779B185EBCA87) == 0x301A17BEA124608E
    ensures Mul64(0x706D756A20786F66, 0xC2B2AE3D27D4EB4F) == 0xECBAC3915DE5027A && Add64(0x9E3779B185EBCA8D, 0xECBAC3915DE5027A) == 0x8AF23D42E3D0CD07
    ensures Rotl64(0x8AF23D42E3D0CD07, 31) == 0x71E86683C5791EA1 && Mul64(0x71E86683C5791EA1, 0x9E3779B185EBCA87) == 0xBDCF82B877D530E7
    ensures Mul64(0x74207265766F2073, 0xC2B2AE3D27D4EB4F) == 0x46965866F350947D && Add64(0x0000000000000006, 0x46965866F350947D) == 0x46965866F3509483
    ensures Rotl64(0x46965866F3509483, 31) == 0x79A84A41A34B2C33 && Mul64(0x79A84A41A34B2C33, 0x9E3779B185EBCA87) == 0x9E4091B17F558CE5
    ensures Rotl64(0x0337D431C210E50C, 1) == 0x066FA8638421CA18 && Rotl64(0x301A17BEA124608E, 7) == 0x0D0BDF5092304718
    ensures Add64(0x066FA8638421CA18, 0x0D0BDF5092304718) == 0x137B87B416521130 && Rotl64(0xBDCF82B877D530E7, 12) == 0xF82B877D530E7BDC
    ensures Add64(0x137B87B416521130, 0xF82B877D530E7BDC) == 0x0BA70F3169608D0C && Rotl64(0x9E4091B17F558CE5, 18) == 0x46C5FD5633967902
    ensures Add64(0x0BA70F3169608D0C, 0x46C5FD5633967902) == 0x526D0C879CF7060E && Mul64(0x0337D431C210E50C, 0xC2B2AE3D27D4EB4F) == 0x9FD62D3EE768B2B4
    ensures Add64(0x0000000000000000, 0x9FD62D3EE768B2B4) == 0x9FD62D3EE768B2B4 && Rotl64(0x9FD62D3EE768B2B4, 31) == 0x73B4595A4FEB169F
    ensures Mul64(0x73B4595A4FEB169F, 0x9E3779B185EBCA87) == 0xA16DAC2D03C763D9 && Xor64(0x526D0C879CF7060E, 0xA16DAC2D03C763D9) == 0xF300A0AA9F3065D7
    ensures Mul64(0xF300A0AA9F3065D7, 0x9E3779B185EBCA87) == 0x4939AA93523E5A61 && Add64(0x4939AA93523E5A61, 0x85EBCA77C2B2AE63) == 0xCF25750B14F108C4
    ensures Mul64(0x301A17BEA124608E, 0xC2B2AE3D27D4EB4F) == 0x5E4AD46BB67425D2 && Add64(0x0000000000000000, 0x5E4AD46BB67425D2) == 0x5E4AD46BB67425D2
    ensures Rotl64(0x5E4AD46BB67425D2, 31) == 0xDB3A12E92F256A35 && Mul64(0xDB3A12E92F256A35, 0x9E3779B185EBCA87) == 0xBF8D2B566A2FD3F3
    ensures Xor64(0xCF25750B14F108C4, 0xBF8D2B566A2FD3F3) == 0x70A85E5D7EDEDB37 && Mul64(0x70A85E5D7EDEDB37, 0x9E3779B185EBCA87) == 0x8E8057E78EFC0001
    ensures Add64(0x8E8057E78EFC0001, 0x85EBCA77C2B2AE63) == 0x146C225F51AEAE64 && Mul64(0xBDCF82B877D530E7, 0xC2B2AE3D27D4EB4F) == 0xEEB50CF85EFA2449
    ensures Add64(0x0000000000000000, 0xEEB50CF85EFA2449) == 0xEEB50CF85EFA2449 && Rotl64(0xEEB50CF85EFA2449, 31) == 0x2F7D1224F75A867C
    ensures Mul64(0x2F7D1224F75A867C, 0x9E3779B185EBCA87) == 0xD3826C5FBEAEC364 && Xor64(0x146C225F51AEAE64, 0xD3826C5FBEAEC364) == 0xC7EE4E00EF006D00
    ensures Mul64(0xC7EE4E00EF006D00, 0x9E3779B185EBCA87) == 0x6D0EDA196E3B7B00 && Add64(0x6D0EDA196E3B7B00, 0x85EBCA77C2B2AE63) == 0xF2FAA49130EE2963
    ensures Mul64(0x9E4091B17F558CE5, 0xC2B2AE3D27D4EB4F) == 0xCB6E998A6460B1AB && Add64(0x0000000000000000, 0xCB6E998A6460B1AB) == 0xCB6E998A6460B1AB
    ensures Rotl64(0xCB6E998A6460B1AB, 31) == 0x323058D5E5B74CC5 && Mul64(0x323058D5E5B74CC5, 0x9E3779B185EBCA87) == 0xD5A1EB699813EDE3
    ensures Xor64(0xF2FAA49130EE2963, 0xD5A1EB699813EDE3) == 0x275B4FF8A8FDC480 && Mul64(0x275B4FF8A8FDC480, 0x9E3779B185EBCA87) == 0x6825B6033C5F9F80
    ensures Add64(0x6825B6033C5F9F80, 0x85EBCA77C2B2AE63) == 0xEE11807AFF124DE3
  {
  }

  lemma Stripe64()
    ensures Xxh64.StripeRound([0xFF21A1A033AC8063, 0x60EA27EEADC0B5DC, 0x9E3779B185EBCA8D, 0x0000000000000006], Row(0) + Row(1))
            == [0x0337D431C210E50C, 0x301A17BEA124608E, 0xBDCF82B877D530E7, 0x9E4091B17F558CE5]
  {
    hide Mul64, Add64, Rotl64, ReadLE64, Word8;
    Words8();
    Steps64();
    Quarters(Word8(0), Word8(1), Word8(2), Word8(3));
  }

  lemma Merge64()
    ensures Xxh64.MergeAccs([0x0337D431C210E50C, 0x301A17BEA124608E, 0xBDCF82B877D530E7, 0x9E4091B17F558CE5]) == 0xEE11807AFF124DE3
  {
    hide Mul64, Add64, Xor64, Rotl64;
    Steps64();
  }

  lemma BodySteps64()
    ensures Add64(0xEE11807AFF124DE3, 0x000000000000002B) == 0xEE11807AFF124E0E
  {
  }

  lemma Unfolded64()
    ensures Xxh64.Consumed(Xxh64.InitAccs(SEED64), Fox()) == Xxh64.StripeRound(Xxh64.InitAccs(SEED64), Row(0) + Row(1))
    ensures Rest(32, Fox()) == Word8(4) + LAST3
  {
    hide Xxh64.InitAccs, Xxh64.StripeRound, Row, Word8;
    assert Fox() == (Row(0) + Row(1)) + (Word8(4) + LAST3);
    Parts(Row(0) + Row(1), Word8(4) + LAST3);
  }

  lemma TailBytes64(h: bv64)
    ensures Xxh64.Tail(h, LAST3) == Xxh64.Process1(Xxh64.Process1(Xxh64.Process1(h, 0x64), 0x6F), 0x67)
  {
    hide Xxh64.Process1, Xxh64.Process4, Xxh64.Process8;
    assert LAST3[1..] == [0x6F, 0x67] && LAST3[1..][1..] == [0x67] && LAST3[1..][1..][1..] == [];
  }

  lemma TailWords64(h: bv64)
    ensures Xxh64.Tail(h, Word8(4) + LAST3) == Xxh64.Tail(Xxh64.Process8(h, ReadLE64(Word8(4))), LAST3)
  {
    hide Xxh64.Process1, Xxh64.Process4, Xxh64.Process8, ReadLE64, Word8;
    Parts(Word8(4), LAST3);
  }

  lemma Body64()
    ensures Xxh64.Body(Fox(), SEED64) == 0xEE11807AFF124E0E
  {
    hide Add64, LengthWord64, Row, Fox, Xxh64.InitAccs, Xxh64.StripeRound, Xxh64.Consumed, Xxh64.MergeAccs;
    Unfolded64();
    Init64();
    Stripe64();
    Merge64();
    BodySteps64();
    Length43Wide();
  }

  lemma TailSteps64()
    ensures Mul64(0x20797A616C206568, 0xC2B2AE3D27D4EB4F) == 0xD3EF8660ED35C318 && Add64(0x0000000000000000, 0xD3EF8660ED35C318) == 0xD3EF8660ED35C318
    ensures Rotl64(0xD3EF8660ED35C318, 31) == 0x769AE18C69F7C330 && Mul64(0x769AE18C69F7C330, 0x9E3779B185EBCA87) == 0xAF785FB17EBBCE50
    ensures Xor64(0xEE11807AFF124E0E, 0xAF785FB17EBBCE50) == 0x4169DFCB81A9805E && Rotl64(0x4169DFCB81A9805E, 27) == 0x5C0D4C02F20B4EFE
    ensures Mul64(0x5C0D4C02F20B4EFE, 0x9E3779B185EBCA87) == 0xC62B2494097513F2 && Add64(0xC62B2494097513F2, 0x85EBCA77C2B2AE63) == 0x4C16EF0BCC27C255
    ensures Mul64(0x0000000000000064, 0x27D4EB2F165667C5) == 0x8F2BDE64B9C088F4 && Xor64(0x4C16EF0BCC27C255, 0x8F2BDE64B9C088F4) == 0xC33D316F75E74AA1
    ensures Rotl64(0xC33D316F75E74AA1, 11) == 0xE98B7BAF3A550E19 && Mul64(0xE98B7BAF3A550E19, 0x9E3779B185EBCA87) == 0xC926CA1ECDED292F
    ensures Mul64(0x000000000000006F, 0x27D4EB2F165667C5) == 0x4551F96AAF76FE6B && Xor64(0xC926CA1ECDED292F, 0x4551F96AAF76FE6B) == 0x8C773374629BD744
    ensures Rotl64(0x8C773374629BD744, 11) == 0xB99BA314DEBA2463 && Mul64(0xB99BA314DEBA2463, 0x9E3779B185EBCA87) == 0x20CB94FA2AC04E35
    ensures Mul64(0x0000000000000067, 0x27D4EB2F165667C5) == 0x06AA9FF1FCC3C043 && Xor64(0x20CB94FA2AC04E35, 0x06AA9FF1FCC3C043) == 0x26610B0BD6038E76
    ensures Rotl64(0x26610B0BD6038E76, 11) == 0x08585EB01C73B133 && Mul64(0x08585EB01C73B133, 0x9E3779B185EBCA87) == 0x7276BDD873A5AFE5
    ensures XorShr64(0x7276BDD873A5AFE5, 33) == 0x7276BDD84A9EF109 && Mul64(0x7276BDD84A9EF109, 0xC2B2AE3D27D4EB4F) == 0xB75BB1BBE8C3A4C7
    ensures XorShr64(0xB75BB1BBE8C3A4C7, 29) == 0xB75BB1BE521E2918 && Mul64(0xB75BB1BE521E2918, 0x165667B19E3779F9) == 0x1D382A5DC4EA5058
    ensures XorShr64(0x1D382A5DC4EA5058, 32) == 0x1D382A5DD9D27A05
  {
  }

  lemma Tail64()
    ensures Xxh64.Tail(0xEE11807AFF124E0E, Word8(4) + LAST3) == 0x7276BDD873A5AFE5
  {
    hide Mul64, Add64, Xor64, Rotl64, ReadLE64, Word8, Xxh64.Tail;
    TailWords64(0xEE11807AFF124E0E);
    TailBytes64(Xxh64.Process8(0xEE11807AFF124E0E, ReadLE64(Word8(4))));
    Words8();
    LastBytes();
    TailSteps64();
  }

  /** XXH64 of the pangram: a stripe, a word and three bytes. */
  lemma Xxh64Answer()
    ensures Xxh64.Hash(Fox(), SEED64) == 0x1D382A5DD9D27A05
  {
    hide Mul64, XorShr64, Fox, Word8, Rest, Xxh64.Body, Xxh64.Tail;
    Unfolded64();
    Body64();
    Tail64();
    TailSteps64();
  }

  lemma ShortSteps64()
    ensures Add64(0x0000000000000000, 0x27D4EB2F165667C5) == 0x27D4EB2F165667C5 && Add64(0x27D4EB2F165667C5, 0x0000000000000003) == 0x27D4EB2F165667C8
    ensures Mul64(0x0000000000000061, 0x27D4EB2F165667C5) == 0x17AD1CD776BD51A5 && Xor64(0x27D4EB2F165667C8, 0x17AD1CD776BD51A5) == 0x3079F7F860EB366D
    ensures Rotl64(0x3079F7F860EB366D, 11) == 0xCFBFC30759B36983 && Mul64(0xCFBFC30759B36983, 0x9E3779B185EBCA87) == 0x0E6D11BDC91F0215
    ensures Mul64(0x0000000000000062, 0x27D4EB2F165667C5) == 0x3F8208068D13B96A && Xor64(0x0E6D11BDC91F0215, 0x3F8208068D13B96A) == 0x31EF19BB440CBB7F
    ensures Rotl64(0x31EF19BB440CBB7F, 11) == 0x78CDDA2065DBF98F && Mul64(0x78CDDA2065DBF98F, 0x9E3779B185EBCA87) == 0x791983E9AB307069
    ensures Mul64(0x0000000000000063, 0x27D4EB2F165667C5) == 0x6756F335A36A212F && Xor64(0x791983E9AB307069, 0x6756F335A36A212F) == 0x1E4F70DC085A5146
    ensures Rotl64(0x1E4F70DC085A5146, 11) == 0x7B86E042D28A30F2 && Mul64(0x7B86E042D28A30F2, 0x9E3779B185EBCA87) == 0xE87A46F8B9A4C39E
    ensures XorShr64(0xE87A46F8B9A4C39E, 33) == 0xE87A46F8CD99E0E2 && Mul64(0xE87A46F8CD99E0E2, 0xC2B2AE3D27D4EB4F) == 0xDFE7320E5D13DBBE
    ensures XorShr64(0xDFE7320E5D13DBBE, 29) == 0xDFE73208A22A4BCC && Mul64(0xDFE73208A22A4BCC, 0x165667B19E3779F9) == 0x44BC2CF5E9CB256C
    ensures XorShr64(0x44BC2CF5E9CB256C, 32) == 0x44BC2CF5AD770999
  {
  }

  lemma TailAbc64(h: bv64)
    ensures Xxh64.Tail(h, ABC) == Xxh64.Process1(Xxh64.Process1(Xxh64.Process1(h, 0x61), 0x62), 0x63)
  {
    hide Xxh64.Process1, Xxh64.Process4, Xxh64.Process8;
    assert ABC[1..] == [0x62, 0x63] && ABC[1..][1..] == [0x63] && ABC[1..][1..][1..] == [];
  }

  /** And of "abc". */
  lemma Xxh64AnswerAbc()
    ensures Xxh64.Hash(ABC, 0) == 0x44BC2CF5AD770999
  {
    hide Mul64, Add64, Xor64, Rotl64, XorShr64, LengthWord64, Xxh64.Tail;
    TailAbc64(Xxh64.Body(ABC, 0));
    Length3Wide();
    LettersWide();
    ShortSteps64();
  }

  lemma WordSteps64()
    ensures Add64(0x9E3779B185EBCA8D, 0x27D4EB2F165667C5) == 0xC60C64E09C423252 && Add64(0xC60C64E09C423252, 0x0000000000000004) == 0xC60C64E09C423256
    ensures Mul64(0x0000000020656854, 0x9E3779B185EBCA87) == 0xA76B5BFF82E84C4C && Xor64(0xC60C64E09C423256, 0xA76B5BFF82E84C4C) == 0x61673F1F1EAA7E1A
    ensures Rotl64(0x61673F1F1EAA7E1A, 23) == 0x8F8F553F0D30B39F && Mul64(0x8F8F553F0D30B39F, 0xC2B2AE3D27D4EB4F) == 0xB4F46625BF966311
    ensures Add64(0xB4F46625BF966311, 0x165667B19E3779F9) == 0xCB4ACDD75DCDDD0A && XorShr64(0xCB4ACDD75DCDDD0A, 33) == 0xCB4ACDD73868BBE1
    ensures Mul64(0xCB4ACDD73868BBE1, 0xC2B2AE3D27D4EB4F) == 0x6BF6742A6A1D856F && XorShr64(0x6BF6742A6A1D856F, 29) == 0x6BF6742935AE243C
    ensures Mul64(0x6BF6742935AE243C, 0x165667B19E3779F9) == 0x65BDAAB756659A5C && XorShr64(0x65BDAAB756659A5C, 32) == 0x65BDAAB733D830EB
  {
  }

  lemma Length4Wide()
    ensures LengthWord64(4) == 4
  {
  }

  lemma WordWide()
    ensures 0x20656854 as bv32 as bv64 == 0x0000000020656854
  {
  }

  lemma TailWord64(h: bv64)
    ensures Xxh64.Tail(h, Word4(0)) == Xxh64.Process4(h, ReadLE32(Word4(0)))
  {
    hide Xxh64.Process4, ReadLE32, Word4;
    assert Word4(0)[..4] == Word4(0) && Word4(0)[4..] == [];
  }

  /** And of its first four bytes, whose tail is one 32-bit word. */
  lemma Xxh64AnswerWord()
    ensures Xxh64.Hash(Word4(0), SEED64) == 0x65BDAAB733D830EB
  {
    hide Mul64, Add64, Xor64, Rotl64, XorShr64, LengthWord64, ReadLE32, Word4, Xxh64.Tail;
    TailWord64(Xxh64.Body(Word4(0), SEED64));
    Words4();
    WordWide();
    Length4Wide();
    WordSteps64();
  }

  // ---- MurmurHash3, 32 bits ----

  /** The pangram from its i-th word on. */
  function FromWord(i: nat): (s: Bytes)
    requires i <= 10
    ensures |s| == 43 - 4 * i
    decreases 10 - i
  {
    if i == 10 then LAST3 else Word4(i) + FromWord(i + 1)
  }

  lemma FourWords(i: nat)
    requires i <= 6
    ensures FromWord(i) == (Word4(i) + Word4(i + 1)) + (Word4(i + 2) + Word4(i + 3)) + FromWord(i + 4)
  {
    hide Word4;
    assert FromWord(i) == Word4(i) + (Word4(i + 1) + (Word4(i + 2) + (Word4(i + 3) + FromWord(i + 4))));
  }

  lemma TwoWords()
    ensures FromWord(8) == Word4(8) + Word4(9) + LAST3
  {
    hide Word4;
    assert FromWord(8) == Word4(8) + (Word4(9) + LAST3);
  }

  lemma FoxIsWords()
    ensures Fox() == FromWord(0)
  {
    hide Word4, FromWord;
    FourWords(0);
    FourWords(4);
    TwoWords();
    assert Row(0) + (Row(1) + (Word8(4) + LAST3)) == Row(0) + Row(1) + (Word8(4) + LAST3);
  }

  /** One block taken from the front. */
  lemma BlockTaken(h: bv32, i: nat)
    requires i < 10
    ensures BlockMixer.Fold(Murmur3x86_32.BlockStep(), h, Murmur3x86_32.Blocks(FromWord(i)))
            == BlockMixer.Fold(Murmur3x86_32.BlockStep(), Murmur3x86_32.Step(h, ReadLE32(Word4(i))), Murmur3x86_32.Blocks(FromWord(i + 1)))
    ensures Rest(4, FromWord(i)) == Rest(4, FromWord(i + 1))
  {
    hide Word4, ReadLE32, Murmur3x86_32.Step;
    Parts(Word4(i), FromWord(i + 1));
    var blocks := Murmur3x86_32.Blocks(FromWord(i + 1));
    assert Murmur3x86_32.Blocks(FromWord(i)) == [ReadLE32(Word4(i))] + blocks;
    assert ([ReadLE32(Word4(i))] + blocks)[1..] == blocks;
  }

  lemma MurmurSteps32()
    ensures Mul32(0x20656854, 0xCC9E2D51) == 0x6744C694 && Rotl32(0x6744C694, 15) == 0x634A33A2 && Mul32(0x634A33A2, 0x1B873593) == 0xB0BA3006
    ensures Xor32(0x9747B28C, 0xB0BA3006) == 0x27FD828A && Rotl32(0x27FD828A, 13) == 0xB05144FF && Mul32(0xB05144FF, 0x00000005) == 0x719658FB
    ensures Add32(0x719658FB, 0xE6546B64) == 0x57EAC45F && Mul32(0x63697571, 0xCC9E2D51) == 0x85C105C1 && Rotl32(0x85C105C1, 15) == 0x82E0C2E0
    ensures Mul32(0x82E0C2E0, 0x1B873593) == 0x138846A0 && Xor32(0x57EAC45F, 0x138846A0) == 0x446282FF && Rotl32(0x446282FF, 13) == 0x505FE88C
    ensures Mul32(0x505FE88C, 0x00000005) == 0x91DF8ABC && Add32(0x91DF8ABC, 0xE6546B64) == 0x7833F620 && Mul32(0x7262206B, 0xCC9E2D51) == 0xB6C910DB
    ensures Rotl32(0xB6C910DB, 15) == 0x886DDB64 && Mul32(0x886DDB64, 0x1B873593) == 0x533CAE6C && Xor32(0x7833F620, 0x533CAE6C) == 0x2B0F584C
    ensures Rotl32(0x2B0F584C, 13) == 0xEB098561 && Mul32(0xEB098561, 0x00000005) == 0x972F9AE5 && Add32(0x972F9AE5, 0xE6546B64) == 0x7D840649
    ensures Mul32(0x206E776F, 0xCC9E2D51) == 0xD8744D1F && Rotl32(0xD8744D1F, 15) == 0x268FEC3A && Mul32(0x268FEC3A, 0x1B873593) == 0xA122A74E
    ensures Xor32(0x7D840649, 0xA122A74E) == 0xDCA6A107 && Rotl32(0xDCA6A107, 13) == 0xD420FB94 && Mul32(0xD420FB94, 0x00000005) == 0x24A4E9E4
    ensures Add32(0x24A4E9E4, 0xE6546B64) == 0x0AF95548 && Mul32(0x20786F66, 0xCC9E2D51) == 0x7AA42D46 && Rotl32(0x7AA42D46, 15) == 0x16A33D52
    ensures Mul32(0x16A33D52, 0x1B873593) == 0xC7AC3016 && Xor32(0x0AF95548, 0xC7AC3016) == 0xCD55655E && Rotl32(0xCD55655E, 13) == 0xACABD9AA
    ensures Mul32(0xACABD9AA, 0x00000005) == 0x5F5B4052 && Add32(0x5F5B4052, 0xE6546B64) == 0x45AFABB6
    ensures Mul32(0x706D756A, 0xCC9E2D51) == 0xBFB1C88A && Rotl32(0xBFB1C88A, 15) == 0xE4455FD8 && Mul32(0xE4455FD8, 0x1B873593) == 0xC395C108
    ensures Xor32(0x45AFABB6, 0xC395C108) == 0x863A6ABE && Rotl32(0x863A6ABE, 13) == 0x4D57D0C7 && Mul32(0x4D57D0C7, 0x00000005) == 0x82B713E3
    ensures Add32(0x82B713E3, 0xE6546B64) == 0x690B7F47 && Mul32(0x766F2073, 0xCC9E2D51) == 0xACD77B63 && Rotl32(0xACD77B63, 15) == 0xBDB1D66B
    ensures Mul32(0xBDB1D66B, 0x1B873593) == 0x19EF4671 && Xor32(0x690B7F47, 0x19EF4671) == 0x70E43936 && Rotl32(0x70E43936, 13) == 0x8726CE1C
    ensures Mul32(0x8726CE1C, 0x00000005) == 0xA3C2068C && Add32(0xA3C2068C, 0xE6546B64) == 0x8A1671F0 && Mul32(0x74207265, 0xCC9E2D51) == 0x88B5F2F5
    ensures Rotl32(0x88B5F2F5, 15) == 0xF97AC45A && Mul32(0xF97AC45A, 0x1B873593) == 0xB59B61AE && Xor32(0x8A1671F0, 0xB59B61AE) == 0x3F8D105E
    ensures Rotl32(0x3F8D105E, 13) == 0xA20BC7F1 && Mul32(0xA20BC7F1, 0x00000005) == 0x2A3AE7B5 && Add32(0x2A3AE7B5, 0xE6546B64) == 0x108F5319
    ensures Mul32(0x6C206568, 0xCC9E2D51) == 0x5E435DE8 && Rotl32(0x5E435DE8, 15) == 0xAEF42F21 && Mul32(0xAEF42F21, 0x1B873593) == 0x595FE4F3
    ensures Xor32(0x108F5319, 0x595FE4F3) == 0x49D0B7EA && Rotl32(0x49D0B7EA, 13) == 0x16FD493A && Mul32(0x16FD493A, 0x00000005) == 0x72F26E22
    ensures Add32(0x72F26E22, 0xE6546B64) == 0x5946D986 && Mul32(0x20797A61, 0xCC9E2D51) == 0x74D0C5B1 && Rotl32(0x74D0C5B1, 15) == 0x62D8BA68
    ensures Mul32(0x62D8BA68, 0x1B873593) == 0xE5E291B8 && Xor32(0x5946D986, 0xE5E291B8) == 0xBCA4483E && Rotl32(0xBCA4483E, 13) == 0x8907D794
    ensures Mul32(0x8907D794, 0x00000005) == 0xAD2735E4 && Add32(0xAD2735E4, 0xE6546B64) == 0x937BA148
    ensures Mul32(0x00676F64, 0xCC9E2D51) == 0xBF06D2A4 && Rotl32(0xBF06D2A4, 15) == 0x69525F83 && Mul32(0x69525F83, 0x1B873593) == 0xB727F739
    ensures Xor32(0x937BA148, 0xB727F739) == 0x245C5671 && Xor32(0x245C5671, 0x0000002B) == 0x245C565A && XorShr32(0x245C565A, 16) == 0x245C7206
    ensures Mul32(0x245C7206, 0x85EBCA6B) == 0xEE1E6482 && XorShr32(0xEE1E6482, 13) == 0xEE191471 && Mul32(0xEE191471, 0xC2B2AE35) == 0x2FA80965
    ensures XorShr32(0x2FA80965, 16) == 0x2FA826CD
  {
  }

  lemma FiveBlocks0()
    ensures Murmur3x86_32.Step(0x9747B28C, ReadLE32(Word4(0))) == 0x57EAC45F
    ensures Murmur3x86_32.Step(0x57EAC45F, ReadLE32(Word4(1))) == 0x7833F620
    ensures Murmur3x86_32.Step(0x7833F620, ReadLE32(Word4(2))) == 0x7D840649
    ensures Murmur3x86_32.Step(0x7D840649, ReadLE32(Word4(3))) == 0x0AF95548
    ensures Murmur3x86_32.Step(0x0AF95548, ReadLE32(Word4(4))) == 0x45AFABB6
  {
    hide Mul32, Add32, Xor32, Rotl32, ReadLE32, Word4;
    Words4();
    MurmurSteps32();
  }

  lemma FiveBlocks1()
    ensures Murmur3x86_32.Step(0x45AFABB6, ReadLE32(Word4(5))) == 0x690B7F47
    ensures Murmur3x86_32.Step(0x690B7F47, ReadLE32(Word4(6))) == 0x8A1671F0
    ensures Murmur3x86_32.Step(0x8A1671F0, ReadLE32(Word4(7))) == 0x108F5319
    ensures Murmur3x86_32.Step(0x108F5319, ReadLE32(Word4(8))) == 0x5946D986
    ensures Murmur3x86_32.Step(0x5946D986, ReadLE32(Word4(9))) == 0x937BA148
  {
    hide Mul32, Add32, Xor32, Rotl32, ReadLE32, Word4;
    Words4();
    MurmurSteps32();
  }

  lemma LastPart()
    ensures PartLE32(LAST3) == 0x00676F64
  {
  }

  lemma Blocks32()
    ensures BlockMixer.Fold(Murmur3x86_32.BlockStep(), SEED32, Murmur3x86_32.Blocks(Fox())) == 0x937BA148
    ensures Rest(4, Fox()) == LAST3
  {
    hide Word4, ReadLE32, Murmur3x86_32.Step, Fox;
    FoxIsWords();
    FiveBlocks0();
    FiveBlocks1();
    BlockTaken(0x9747B28C, 0);
    BlockTaken(0x57EAC45F, 1);
    BlockTaken(0x7833F620, 2);
    BlockTaken(0x7D840649, 3);
    BlockTaken(0x0AF95548, 4);
    BlockTaken(0x45AFABB6, 5);
    BlockTaken(0x690B7F47, 6);
    BlockTaken(0x8A1671F0, 7);
    BlockTaken(0x108F5319, 8);
    BlockTaken(0x5946D986, 9);
    assert Murmur3x86_32.Blocks(LAST3) == [];
  }

  /** The 32-bit hash of the pangram: ten blocks and three bytes. */
  lemma Murmur32Answer()
    ensures Murmur3x86_32.Hash(Fox(), SEED32) == 0x2FA826CD
  {
    hide Mul32, Add32, Xor32, Rotl32, XorShr32, LengthWord32, PartLE32, Fox, Rest, BlockMixer.Fold, Murmur3x86_32.Blocks, Murmur3x86_32.BlockStep;
    Blocks32();
    LastPart();
    Length43();
    MurmurSteps32();
  }

  // ---- MurmurHash3, 128 bits on 64-bit words ----

  lemma RowsTaken(h: Murmur3x64_128.Pair)
    ensures var r0, r1 := Murmur3x64_128.ReadBlock(Row(0)), Murmur3x64_128.ReadBlock(Row(1));
            BlockMixer.Fold(Murmur3x64_128.BlockStep(), h, Murmur3x64_128.Blocks(Fox())) == Murmur3x64_128.Step(Murmur3x64_128.Step(h, r0), r1)
    ensures Rest(16, Fox()) == Word8(4) + LAST3
  {
    hide Row, Word8, Murmur3x64_128.ReadBlock, Murmur3x64_128.Step;
    Parts(Row(0), Row(1) + (Word8(4) + LAST3));
    Parts(Row(1), Word8(4) + LAST3);
    var r0, r1 := Murmur3x64_128.ReadBlock(Row(0)), Murmur3x64_128.ReadBlock(Row(1));
    assert Murmur3x64_128.Blocks(Word8(4) + LAST3) == [];
    assert Murmur3x64_128.Blocks(Row(1) + (Word8(4) + LAST3)) == [r1];
    assert Murmur3x64_128.Blocks(Fox()) == [r0] + [r1];
    assert ([r0] + [r1])[1..] == [r1] && [r1][1..] == [];
  }

  lemma RowSteps()
    ensures Mul64(0x6369757120656854, 0x87C37B91114253D5) == 0x88AFEE474EDB09E4 && Rotl64(0x88AFEE474EDB09E4, 31) == 0xA76D84F24457F723
    ensures Mul64(0xA76D84F24457F723, 0x4CF5AD432745937F) == 0xEDE938F35BFBB35D && Xor64(0x000000009747B28C, 0xEDE938F35BFBB35D) == 0xEDE938F3CCBC01D1
    ensures Rotl64(0xEDE938F3CCBC01D1, 27) == 0x9E65E00E8F6F49C7 && Add64(0x9E65E00E8F6F49C7, 0x000000009747B28C) == 0x9E65E00F26B6FC53
    ensures Mul64(0x9E65E00F26B6FC53, 0x0000000000000005) == 0x17FD604BC192ED9F && Add64(0x17FD604BC192ED9F, 0x0000000052DCE729) == 0x17FD604C146FD4C8
    ensures Mul64(0x206E776F7262206B, 0x4CF5AD432745937F) == 0xBAD6D15C21228615 && Rotl64(0xBAD6D15C21228615, 33) == 0x42450C2B75ADA2B8
    ensures Mul64(0x42450C2B75ADA2B8, 0x87C37B91114253D5) == 0x9B19A81A60AA0B18 && Xor64(0x000000009747B28C, 0x9B19A81A60AA0B18) == 0x9B19A81AF7EDB994
    ensures Rotl64(0x9B19A81AF7EDB994, 31) == 0x7BF6DCCA4D8CD40D && Add64(0x7BF6DCCA4D8CD40D, 0x17FD604C146FD4C8) == 0x93F43D1661FCA8D5
    ensures Mul64(0x93F43D1661FCA8D5, 0x0000000000000005) == 0xE3C5316FE9EF4C29 && Add64(0xE3C5316FE9EF4C29, 0x0000000038495AB5) == 0xE3C531702238A6DE
    ensures Mul64(0x706D756A20786F66, 0x87C37B91114253D5) == 0x4017930C8E9EC1DE && Rotl64(0x4017930C8E9EC1DE, 31) == 0x474F60EF200BC986
    ensures Mul64(0x474F60EF200BC986, 0x4CF5AD432745937F) == 0x82E320FA65AEEB7A && Xor64(0x17FD604C146FD4C8, 0x82E320FA65AEEB7A) == 0x951E40B671C13FB2
    ensures Rotl64(0x951E40B671C13FB2, 27) == 0xB38E09FD94A8F205 && Add64(0xB38E09FD94A8F205, 0xE3C531702238A6DE) == 0x97533B6DB6E198E3
    ensures Mul64(0x97533B6DB6E198E3, 0x0000000000000005) == 0xF4A029249267FC6F && Add64(0xF4A029249267FC6F, 0x0000000052DCE729) == 0xF4A02924E544E398
    ensures Mul64(0x74207265766F2073, 0x4CF5AD432745937F) == 0xD23F1255D4C2220D && Rotl64(0xD23F1255D4C2220D, 33) == 0xA984441BA47E24AB
    ensures Mul64(0xA984441BA47E24AB, 0x87C37B91114253D5) == 0x3480582491EDF347 && Xor64(0xE3C531702238A6DE, 0x3480582491EDF347) == 0xD7456954B3D55599
    ensures Rotl64(0xD7456954B3D55599, 31) == 0x59EAAACCEBA2B4AA && Add64(0x59EAAACCEBA2B4AA, 0xF4A02924E544E398) == 0x4E8AD3F1D0E79842
    ensures Mul64(0x4E8AD3F1D0E79842, 0x0000000000000005) == 0x88B623B91485F94A && Add64(0x88B623B91485F94A, 0x0000000038495AB5) == 0x88B623B94CCF53FF
  {
  }

  lemma RowDone0()
    ensures Murmur3x64_128.Step(Murmur3x64_128.Pair(0x000000009747B28C, 0x000000009747B28C), Murmur3x64_128.ReadBlock(Row(0)))
            == Murmur3x64_128.Pair(0x17FD604C146FD4C8, 0xE3C531702238A6DE)
  {
    hide Mul64, Add64, Xor64, Rotl64, ReadLE64, Word8;
    Words8();
    Parts(Word8(0), Word8(1));
    assert Row(0)[0..8] == Word8(0) && Row(0)[8..16] == Word8(1);
    RowSteps();
  }

  lemma RowDone1()
    ensures Murmur3x64_128.Step(Murmur3x64_128.Pair(0x17FD604C146FD4C8, 0xE3C531702238A6DE), Murmur3x64_128.ReadBlock(Row(1)))
            == Murmur3x64_128.Pair(0xF4A02924E544E398, 0x88B623B94CCF53FF)
  {
    hide Mul64, Add64, Xor64, Rotl64, ReadLE64, Word8;
    Words8();
    Parts(Word8(2), Word8(3));
    assert Row(1)[0..8] == Word8(2) && Row(1)[8..16] == Word8(3);
    RowSteps();
  }

  lemma TailSteps128()
    ensures Mul64(0x0000000000676F64, 0x4CF5AD432745937F) == 0x4C1C9940DA3AAE9C && Rotl64(0x4C1C9940DA3AAE9C, 33) == 0xB4755D3898393281
    ensures Mul64(0xB4755D3898393281, 0x87C37B91114253D5) == 0x307F8A9BC938D855 && Xor64(0x88B623B94CCF53FF, 0x307F8A9BC938D855) == 0xB8C9A92285F78BAA
    ensures Mul64(0x20797A616C206568, 0x87C37B91114253D5) == 0x5256D81B84A51788 && Rotl64(0x5256D81B84A51788, 31) == 0xC2528BC4292B6C0D
    ensures Mul64(0xC2528BC4292B6C0D, 0x4CF5AD432745937F) == 0xBE2CC08576171173 && Xor64(0xF4A02924E544E398, 0xBE2CC08576171173) == 0x4A8CE9A19353F2EB
    ensures Xor64(0x4A8CE9A19353F2EB, 0x000000000000002B) == 0x4A8CE9A19353F2C0 && Xor64(0xB8C9A92285F78BAA, 0x000000000000002B) == 0xB8C9A92285F78B81
    ensures Add64(0x4A8CE9A19353F2C0, 0xB8C9A92285F78B81) == 0x035692C4194B7E41 && Add64(0xB8C9A92285F78B81, 0x035692C4194B7E41) == 0xBC203BE69F4309C2
    ensures XorShr64(0x035692C4194B7E41, 33) == 0x035692C418E03723 && Mul64(0x035692C418E03723, 0xFF51AFD7ED558CCD) == 0xC3CCD5853F524B07
    ensures XorShr64(0xC3CCD5853F524B07, 33) == 0xC3CCD5855EB421C5 && Mul64(0xC3CCD5855EB421C5, 0xC4CEB9FE1A85EC53) == 0xEDCF8B0550E18EDF
    ensures XorShr64(0xEDCF8B0550E18EDF, 33) == 0xEDCF8B0526064B5D && XorShr64(0xBC203BE69F4309C2, 33) == 0xBC203BE6C1531431
    ensures Mul64(0xBC203BE6C1531431, 0xFF51AFD7ED558CCD) == 0x253EB7F04FD6F73D && XorShr64(0x253EB7F04FD6F73D, 33) == 0x253EB7F05D49ACC5
    ensures Mul64(0x253EB7F05D49ACC5, 0xC4CEB9FE1A85EC53) == 0x85BAF436EE819FDF && XorShr64(0x85BAF436EE819FDF, 33) == 0x85BAF436AC5CE5C4
    ensures Add64(0xEDCF8B0526064B5D, 0x85BAF436AC5CE5C4) == 0x738A7F3BD2633121 && Add64(0x85BAF436AC5CE5C4, 0x738A7F3BD2633121) == 0xF94573727EC016E5
  {
  }

  lemma LastPartWide()
    ensures PartLE64(LAST3) == 0x0000000000676F64
  {
  }

  lemma EighthPart()
    ensures PartLE64(Word8(4)) == 0x20797A616C206568
  {
    assert Word8(4) == [0x68, 0x65, 0x20, 0x6C, 0x61, 0x7A, 0x79, 0x20];
  }

  lemma TailDone128()
    ensures Murmur3x64_128.WithTail(Murmur3x64_128.Pair(0xF4A02924E544E398, 0x88B623B94CCF53FF), Word8(4) + LAST3)
            == Murmur3x64_128.Pair(0x4A8CE9A19353F2EB, 0xB8C9A92285F78BAA)
  {
    hide Mul64, Xor64, Rotl64, PartLE64, Word8;
    Parts(Word8(4), LAST3);
    EighthPart();
    LastPartWide();
    TailSteps128();
  }

  lemma SeedWide()
    ensures SEED32 as bv64 == 0x000000009747B28C
  {
  }

  /** The 128-bit hash of the pangram on 64-bit words: two blocks and eleven bytes. */
  lemma Murmur128Answer()
    ensures Murmur3x64_128.Hash(Fox(), SEED32) == Murmur3x64_128.Pair(0x738A7F3BD2633121, 0xF94573727EC016E5)
  {
    hide Mul64, Add64, Xor64, Rotl64, XorShr64, LengthWord64, Fox, Row, Word8, Rest, BlockMixer.Fold, Murmur3x64_128.Blocks,
         Murmur3x64_128.BlockStep, Murmur3x64_128.Step,
         Murmur3x64_128.ReadBlock, Murmur3x64_128.WithTail;
    RowsTaken(Murmur3x64_128.Pair(0x000000009747B28C, 0x000000009747B28C));
    SeedWide();
    RowDone0();
    RowDone1();
    TailDone128();
    Length43Wide();
    TailSteps128();
  }

  // ---- MurmurHash3, 128 bits on 32-bit words ----

  lemma QuadsTaken(h: Murmur3x86_128.Quad)
    ensures var r0, r1 := Murmur3x86_128.ReadBlock(Row(0)), Murmur3x86_128.ReadBlock(Row(1));
            BlockMixer.Fold(Murmur3x86_128.BlockStep(), h, Murmur3x86_128.Blocks(Fox())) == Murmur3x86_128.Step(Murmur3x86_128.Step(h, r0), r1)
  {
    hide Row, Word8, Murmur3x86_128.ReadBlock, Murmur3x86_128.Step;
    Parts(Row(0), Row(1) + (Word8(4) + LAST3));
    Parts(Row(1), Word8(4) + LAST3);
    var r0, r1 := Murmur3x86_128.ReadBlock(Row(0)), Murmur3x86_128.ReadBlock(Row(1));
    assert Murmur3x86_128.Blocks(Word8(4) + LAST3) == [];
    assert Murmur3x86_128.Blocks(Row(1) + (Word8(4) + LAST3)) == [r1];
    assert Murmur3x86_128.Blocks(Fox()) == [r0] + [r1];
    assert ([r0] + [r1])[1..] == [r1] && [r1][1..] == [];
  }

  lemma QuadSteps()
    ensures Mul32(0x20656854, 0x239B961B) == 0x7CAF38DC && Rotl32(0x7CAF38DC, 15) == 0x9C6E3E57 && Mul32(0x9C6E3E57, 0xAB0E9789) == 0x4386AD8F
    ensures Xor32(0x9747B28C, 0x4386AD8F) == 0xD4C11F03 && Rotl32(0xD4C11F03, 19) == 0xF81EA608 && Add32(0xF81EA608, 0x9747B28C) == 0x8F665894
    ensures Mul32(0x8F665894, 0x00000005) == 0xCCFFBAE4 && Add32(0xCCFFBAE4, 0x561CCD1B) == 0x231C87FF && Mul32(0x63697571, 0xAB0E9789) == 0x4EE38079
    ensures Rotl32(0x4EE38079, 16) == 0x80794EE3 && Mul32(0x80794EE3, 0x38B34AE5) == 0xCE0A2F0F && Xor32(0x9747B28C, 0xCE0A2F0F) == 0x594D9D83
    ensures Rotl32(0x594D9D83, 17) == 0x3B06B29B && Add32(0x3B06B29B, 0x9747B28C) == 0xD24E6527 && Mul32(0xD24E6527, 0x00000005) == 0x1B87F9C3
    ensures Add32(0x1B87F9C3, 0x0BCAA747) == 0x2752A10A && Mul32(0x7262206B, 0x38B34AE5) == 0xC1F6EDB7 && Rotl32(0xC1F6EDB7, 17) == 0xDB6F83ED
    ensures Mul32(0xDB6F83ED, 0xA1E38B93) == 0x95D17017 && Xor32(0x9747B28C, 0x95D17017) == 0x0296C29B && Rotl32(0x0296C29B, 15) == 0x614D814B
    ensures Add32(0x614D814B, 0x9747B28C) == 0xF89533D7 && Mul32(0xF89533D7, 0x00000005) == 0xDAEA0333 && Add32(0xDAEA0333, 0x96CD1C35) == 0x71B71F68
    ensures Mul32(0x206E776F, 0xA1E38B93) == 0x50B4D9BD && Rotl32(0x50B4D9BD, 18) == 0x66F542D3 && Mul32(0x66F542D3, 0x239B961B) == 0xDFC6AE41
    ensures Xor32(0x9747B28C, 0xDFC6AE41) == 0x48811CCD && Rotl32(0x48811CCD, 13) == 0x2399A910 && Add32(0x2399A910, 0x231C87FF) == 0x46B6310F
    ensures Mul32(0x46B6310F, 0x00000005) == 0x618EF54B && Add32(0x618EF54B, 0x32AC3B17) == 0x943B3062
    ensures Mul32(0x20786F66, 0x239B961B) == 0x62BB83C2 && Rotl32(0x62BB83C2, 15) == 0xC1E1315D && Mul32(0xC1E1315D, 0xAB0E9789) == 0x67B745C5
    ensures Xor32(0x231C87FF, 0x67B745C5) == 0x44ABC23A && Rotl32(0x44ABC23A, 19) == 0x11D2255E && Add32(0x11D2255E, 0x2752A10A) == 0x3924C668
    ensures Mul32(0x3924C668, 0x00000005) == 0x1DB7E008 && Add32(0x1DB7E008, 0x561CCD1B) == 0x73D4AD23 && Mul32(0x706D756A, 0xAB0E9789) == 0xF4A15BBA
    ensures Rotl32(0xF4A15BBA, 16) == 0x5BBAF4A1 && Mul32(0x5BBAF4A1, 0x38B34AE5) == 0x5D865E05 && Xor32(0x2752A10A, 0x5D865E05) == 0x7AD4FF0F
    ensures Rotl32(0x7AD4FF0F, 17) == 0xFE1EF5A9 && Add32(0xFE1EF5A9, 0x71B71F68) == 0x6FD61511 && Mul32(0x6FD61511, 0x00000005) == 0x2F2E6955
    ensures Add32(0x2F2E6955, 0x0BCAA747) == 0x3AF9109C && Mul32(0x766F2073, 0x38B34AE5) == 0xE93244DF && Rotl32(0xE93244DF, 17) == 0x89BFD264
    ensures Mul32(0x89BFD264, 0xA1E38B93) == 0xB30E1B6C && Xor32(0x71B71F68, 0xB30E1B6C) == 0xC2B90404 && Rotl32(0xC2B90404, 15) == 0x8202615C
    ensures Add32(0x8202615C, 0x943B3062) == 0x163D91BE && Mul32(0x163D91BE, 0x00000005) == 0x6F33D8B6 && Add32(0x6F33D8B6, 0x96CD1C35) == 0x0600F4EB
    ensures Mul32(0x74207265, 0xA1E38B93) == 0x414D86FF && Rotl32(0x414D86FF, 18) == 0x1BFD0536 && Mul32(0x1BFD0536, 0x239B961B) == 0xBE6F30B2
    ensures Xor32(0x943B3062, 0xBE6F30B2) == 0x2A5400D0 && Rotl32(0x2A5400D0, 13) == 0x801A054A && Add32(0x801A054A, 0x73D4AD23) == 0xF3EEB26D
    ensures Mul32(0xF3EEB26D, 0x00000005) == 0xC3A97C21 && Add32(0xC3A97C21, 0x32AC3B17) == 0xF655B738
  {
  }

  lemma QuadDone0()
    ensures Murmur3x86_128.Step(Murmur3x86_128.Quad(0x9747B28C, 0x9747B28C, 0x9747B28C, 0x9747B28C), Murmur3x86_128.ReadBlock(Row(0)))
            == Murmur3x86_128.Quad(0x231C87FF, 0x2752A10A, 0x71B71F68, 0x943B3062)
  {
    hide Mul32, Add32, Xor32, Rotl32, ReadLE32, Word4;
    Words4();
    Quarters(Word4(0), Word4(1), Word4(2), Word4(3));
    QuadSteps();
  }

  lemma QuadDone1()
    ensures Murmur3x86_128.Step(Murmur3x86_128.Quad(0x231C87FF, 0x2752A10A, 0x71B71F68, 0x943B3062), Murmur3x86_128.ReadBlock(Row(1)))
            == Murmur3x86_128.Quad(0x73D4AD23, 0x3AF9109C, 0x0600F4EB, 0xF655B738)
  {
    hide Mul32, Add32, Xor32, Rotl32, ReadLE32, Word4;
    Words4();
    Quarters(Word4(4), Word4(5), Word4(6), Word4(7));
    QuadSteps();
  }

  lemma TailSteps4()
    ensures Mul32(0x6C206568, 0x239B961B) == 0x00CDA1F8 && Rotl32(0x00CDA1F8, 15) == 0xD0FC0066 && Mul32(0xD0FC0066, 0xAB0E9789) == 0xA2AC6096
    ensures Xor32(0x73D4AD23, 0xA2AC6096) == 0xD178CDB5 && Mul32(0x20797A61, 0xAB0E9789) == 0x847FB4E9 && Rotl32(0x847FB4E9, 16) == 0xB4E9847F
    ensures Mul32(0xB4E9847F, 0x38B34AE5) == 0xC1FD3B9B && Xor32(0x3AF9109C, 0xC1FD3B9B) == 0xFB042B07 && Mul32(0x00676F64, 0x38B34AE5) == 0x05A58C74
    ensures Rotl32(0x05A58C74, 17) == 0x18E80B4B && Mul32(0x18E80B4B, 0xA1E38B93) == 0x79E13511 && Xor32(0x0600F4EB, 0x79E13511) == 0x7FE1C1FA
    ensures Xor32(0xD178CDB5, 0x0000002B) == 0xD178CD9E && Xor32(0xFB042B07, 0x0000002B) == 0xFB042B2C && Xor32(0x7FE1C1FA, 0x0000002B) == 0x7FE1C1D1
    ensures Xor32(0xF655B738, 0x0000002B) == 0xF655B713 && Add32(0xD178CD9E, 0xFB042B2C) == 0xCC7CF8CA && Add32(0xCC7CF8CA, 0x7FE1C1D1) == 0x4C5EBA9B
    ensures Add32(0x4C5EBA9B, 0xF655B713) == 0x42B471AE && Add32(0xFB042B2C, 0x42B471AE) == 0x3DB89CDA && Add32(0x7FE1C1D1, 0x42B471AE) == 0xC296337F
    ensures Add32(0xF655B713, 0x42B471AE) == 0x390A28C1 && XorShr32(0x42B471AE, 16) == 0x42B4331A && Mul32(0x42B4331A, 0x85EBCA6B) == 0x7C81DFDE
    ensures XorShr32(0x7C81DFDE, 13) == 0x7C823BD0 && Mul32(0x7C823BD0, 0xC2B2AE35) == 0x823DC210 && XorShr32(0x823DC210, 16) == 0x823D402D
    ensures XorShr32(0x3DB89CDA, 16) == 0x3DB8A162 && Mul32(0x3DB8A162, 0x85EBCA6B) == 0x8A78C7F6 && XorShr32(0x8A78C7F6, 13) == 0x8A7C9430
    ensures Mul32(0x8A7C9430, 0xC2B2AE35) == 0xC1E34DF0 && XorShr32(0xC1E34DF0, 16) == 0xC1E38C13 && XorShr32(0xC296337F, 16) == 0xC296F1E9
    ensures Mul32(0xC296F1E9, 0x85EBCA6B) == 0x8DDBF663 && XorShr32(0x8DDBF663, 13) == 0x8DDF98BC && Mul32(0x8DDF98BC, 0xC2B2AE35) == 0x03D266EC
    ensures XorShr32(0x03D266EC, 16) == 0x03D2653E && XorShr32(0x390A28C1, 16) == 0x390A11CB && Mul32(0x390A11CB, 0x85EBCA6B) == 0x95989DD9
    ensures XorShr32(0x95989DD9, 13) == 0x959C311D && Mul32(0x959C311D, 0xC2B2AE35) == 0x42E1E101 && XorShr32(0x42E1E101, 16) == 0x42E1A3E0
    ensures Add32(0x823D402D, 0xC1E38C13) == 0x4420CC40 && Add32(0x4420CC40, 0x03D2653E) == 0x47F3317E && Add32(0x47F3317E, 0x42E1A3E0) == 0x8AD4D55E
    ensures Add32(0xC1E38C13, 0x8AD4D55E) == 0x4CB86171 && Add32(0x03D2653E, 0x8AD4D55E) == 0x8EA73A9C && Add32(0x42E1A3E0, 0x8AD4D55E) == 0xCDB6793E
  {
  }

  lemma WordParts()
    ensures PartLE32(Word4(8)) == 0x6C206568 && PartLE32(Word4(9)) == 0x20797A61
  {
  }

  lemma TailDone4()
    ensures Murmur3x86_128.WithTail(Murmur3x86_128.Quad(0x73D4AD23, 0x3AF9109C, 0x0600F4EB, 0xF655B738), Word8(4) + LAST3)
            == Murmur3x86_128.Quad(0xD178CDB5, 0xFB042B07, 0x7FE1C1FA, 0xF655B738)
  {
    hide Mul32, Xor32, Rotl32, PartLE32, Word4;
    var tail := Word8(4) + LAST3;
    assert tail[..4] == Word4(8) && tail[4..8] == Word4(9) && tail[8..] == LAST3;
    WordParts();
    LastPart();
    TailSteps4();
  }

  /** The 128-bit hash of the pangram on 32-bit words. */
  lemma Murmur4Answer()
    ensures Murmur3x86_128.Hash(Fox(), SEED32) == Murmur3x86_128.Quad(0x8AD4D55E, 0x4CB86171, 0x8EA73A9C, 0xCDB6793E)
  {
    hide Mul32, Add32, Xor32, Rotl32, XorShr32, LengthWord32, Fox, Row, Word8, Rest, BlockMixer.Fold, Murmur3x86_128.Blocks,
         Murmur3x86_128.BlockStep, Murmur3x86_128.Step,
         Murmur3x86_128.ReadBlock, Murmur3x86_128.WithTail;
    QuadsTaken(Murmur3x86_128.Quad(0x9747B28C, 0x9747B28C, 0x9747B28C, 0x9747B28C));
    Unfolded32();
    QuadDone0();
    QuadDone1();
    TailDone4();
    Length43();
    TailSteps4();
  }

}
