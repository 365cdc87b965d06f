/** The default secret and the secret of one seed, word by word. */
module Xxh3Keys {
  import opened Mixing
  import opened Words
  import opened Xxh3Evaluation
  import opened Xxh3Mix
  import opened Xxh3OneShot

  const SEED: bv64 := 0x9E3779B185EBCA8D

  lemma Rows0()
    ensures ReadLE64(KSecretRow(0)[..8]) == 0xBE4BA423396CFEB8 && ReadLE64(KSecretRow(0)[8..]) == 0x1CAD21F72C81017C
    ensures ReadLE64(KSecretRow(1)[..8]) == 0xDB979083E96DD4DE && ReadLE64(KSecretRow(1)[8..]) == 0x1F67B3B7A4A44072
  {
  }

  lemma Rows2()
    ensures ReadLE64(KSecretRow(2)[..8]) == 0x78E5C0CC4EE679CB && ReadLE64(KSecretRow(2)[8..]) == 0x2172FFCC7DD05A82
    ensures ReadLE64(KSecretRow(3)[..8]) == 0x8E2443F7744608B8 && ReadLE64(KSecretRow(3)[8..]) == 0x4C263A81E69035E0
  {
  }

  lemma Rows4()
    ensures ReadLE64(KSecretRow(4)[..8]) == 0xCB00C391BB52283C && ReadLE64(KSecretRow(4)[8..]) == 0xA32E531B8B65D088
    ensures ReadLE64(KSecretRow(5)[..8]) == 0x4EF90DA297486471 && ReadLE64(KSecretRow(5)[8..]) == 0xD8ACDEA946EF1938
  {
  }

  lemma Rows6()
    ensures ReadLE64(KSecretRow(6)[..8]) == 0x3F349CE33F76FAA8 && ReadLE64(KSecretRow(6)[8..]) == 0x1D4F0BC7C7BBDCF9
    ensures ReadLE64(KSecretRow(7)[..8]) == 0x3159B4CD4BE0518A && ReadLE64(KSecretRow(7)[8..]) == 0x647378D9C97E9FC8
  {
  }

  lemma Rows8()
    ensures ReadLE64(KSecretRow(8)[..8]) == 0xC3EBD33483ACC5EA && ReadLE64(KSecretRow(8)[8..]) == 0xEB6313FAFFA081C5
    ensures ReadLE64(KSecretRow(9)[..8]) == 0x49DAF0B751DD0D17 && ReadLE64(KSecretRow(9)[8..]) == 0x9E68D429265516D3
  {
  }

  lemma Rows10()
    ensures ReadLE64(KSecretRow(10)[..8]) == 0xFCA1477D58BE162B && ReadLE64(KSecretRow(10)[8..]) == 0xCE31D07AD1B8F88F
    ensures ReadLE64(KSecretRow(11)[..8]) == 0x280416958F3ACB45 && ReadLE64(KSecretRow(11)[8..]) == 0x7E404BBBCAFBD7AF
  {
  }

  lemma RowWords(i: nat)
    requires i < 12
    ensures WordAt(KSecret(), 16 * i) == ReadLE64(KSecretRow(i)[..8]) && WordAt(KSecret(), 16 * i + 8) == ReadLE64(KSecretRow(i)[8..])
  {
    hide KSecret, KSecretRow, ReadLE64;
    RowHalves(i);
  }

  /** The aligned words of the default secret. */
  lemma Keys()
    ensures WordAt(KSecret(), 0) == 0xBE4BA423396CFEB8 && WordAt(KSecret(), 8) == 0x1CAD21F72C81017C && WordAt(KSecret(), 16) == 0xDB979083E96DD4DE
    ensures WordAt(KSecret(), 24) == 0x1F67B3B7A4A44072 && WordAt(KSecret(), 32) == 0x78E5C0CC4EE679CB && WordAt(KSecret(), 40) == 0x2172FFCC7DD05A82
    ensures WordAt(KSecret(), 48) == 0x8E2443F7744608B8 && WordAt(KSecret(), 56) == 0x4C263A81E69035E0 && WordAt(KSecret(), 64) == 0xCB00C391BB52283C
    ensures WordAt(KSecret(), 72) == 0xA32E531B8B65D088 && WordAt(KSecret(), 80) == 0x4EF90DA297486471 && WordAt(KSecret(), 88) == 0xD8ACDEA946EF1938
    ensures WordAt(KSecret(), 96) == 0x3F349CE33F76FAA8 && WordAt(KSecret(), 104) == 0x1D4F0BC7C7BBDCF9
    ensures WordAt(KSecret(), 112) == 0x3159B4CD4BE0518A
    ensures WordAt(KSecret(), 120) == 0x647378D9C97E9FC8 && WordAt(KSecret(), 128) == 0xC3EBD33483ACC5EA
    ensures WordAt(KSecret(), 136) == 0xEB6313FAFFA081C5
    ensures WordAt(KSecret(), 144) == 0x49DAF0B751DD0D17 && WordAt(KSecret(), 152) == 0x9E68D429265516D3
    ensures WordAt(KSecret(), 160) == 0xFCA1477D58BE162B
    ensures WordAt(KSecret(), 168) == 0xCE31D07AD1B8F88F && WordAt(KSecret(), 176) == 0x280416958F3ACB45
    ensures WordAt(KSecret(), 184) == 0x7E404BBBCAFBD7AF
  {
    hide KSecret, KSecretRow, ReadLE64, WordAt;
    Rows0();
    Rows2();
    Rows4();
    Rows6();
    Rows8();
    Rows10();
    RowWords(0);
    RowWords(1);
    RowWords(2);
    RowWords(3);
    RowWords(4);
    RowWords(5);
    RowWords(6);
    RowWords(7);
    RowWords(8);
    RowWords(9);
    RowWords(10);
    RowWords(11);
  }

  lemma Joins()
    ensures Joined3(0x1CAD21F72C81017C, 0xDB979083E96DD4DE) == 0x6DD4DE1CAD21F72C
    ensures Joined3(0xDB979083E96DD4DE, 0x1F67B3B7A4A44072) == 0xA44072DB979083E9
    ensures Joined3(0x1F67B3B7A4A44072, 0x78E5C0CC4EE679CB) == 0xE679CB1F67B3B7A4
    ensures Joined3(0x78E5C0CC4EE679CB, 0x2172FFCC7DD05A82) == 0xD05A8278E5C0CC4E
    ensures Joined3(0x2172FFCC7DD05A82, 0x8E2443F7744608B8) == 0x4608B82172FFCC7D
    ensures Joined3(0x8E2443F7744608B8, 0x4C263A81E69035E0) == 0x9035E08E2443F774
    ensures Joined3(0x4C263A81E69035E0, 0xCB00C391BB52283C) == 0x52283C4C263A81E6
    ensures Joined3(0xCB00C391BB52283C, 0xA32E531B8B65D088) == 0x65D088CB00C391BB
    ensures Joined5(0x3159B4CD4BE0518A, 0x647378D9C97E9FC8) == 0xD9C97E9FC83159B4
    ensures Joined5(0x647378D9C97E9FC8, 0xC3EBD33483ACC5EA) == 0x3483ACC5EA647378
    ensures Joined5(0xC3EBD33483ACC5EA, 0xEB6313FAFFA081C5) == 0xFAFFA081C5C3EBD3
    ensures Joined5(0xEB6313FAFFA081C5, 0x49DAF0B751DD0D17) == 0xB751DD0D17EB6313
    ensures Joined5(0x49DAF0B751DD0D17, 0x9E68D429265516D3) == 0x29265516D349DAF0
    ensures Joined5(0x9E68D429265516D3, 0xFCA1477D58BE162B) == 0x7D58BE162B9E68D4
    ensures Joined5(0xFCA1477D58BE162B, 0xCE31D07AD1B8F88F) == 0x7AD1B8F88FFCA147
    ensures Joined5(0xCE31D07AD1B8F88F, 0x280416958F3ACB45) == 0x958F3ACB45CE31D0
    ensures Joined1(0x647378D9C97E9FC8, 0xC3EBD33483ACC5EA) == 0xEA647378D9C97E9F
    ensures Joined1(0xC3EBD33483ACC5EA, 0xEB6313FAFFA081C5) == 0xC5C3EBD33483ACC5
    ensures Joined1(0xEB6313FAFFA081C5, 0x49DAF0B751DD0D17) == 0x17EB6313FAFFA081
    ensures Joined1(0x49DAF0B751DD0D17, 0x9E68D429265516D3) == 0xD349DAF0B751DD0D
    ensures Joined1(0x9E68D429265516D3, 0xFCA1477D58BE162B) == 0x2B9E68D429265516
    ensures Joined1(0xFCA1477D58BE162B, 0xCE31D07AD1B8F88F) == 0x8FFCA1477D58BE16
    ensures Joined1(0xCE31D07AD1B8F88F, 0x280416958F3ACB45) == 0x45CE31D07AD1B8F8
    ensures Joined1(0x280416958F3ACB45, 0x7E404BBBCAFBD7AF) == 0xAF280416958F3ACB
    ensures Joined5(0x4C263A81E69035E0, 0xCB00C391BB52283C) == 0x91BB52283C4C263A
    ensures Joined5(0xCB00C391BB52283C, 0xA32E531B8B65D088) == 0x1B8B65D088CB00C3
    ensures Joined5(0xA32E531B8B65D088, 0x4EF90DA297486471) == 0xA297486471A32E53
    ensures Joined5(0x4EF90DA297486471, 0xD8ACDEA946EF1938) == 0xA946EF19384EF90D
    ensures Joined5(0xD8ACDEA946EF1938, 0x3F349CE33F76FAA8) == 0xE33F76FAA8D8ACDE
    ensures Joined5(0x3F349CE33F76FAA8, 0x1D4F0BC7C7BBDCF9) == 0xC7C7BBDCF93F349C
    ensures Joined5(0x1D4F0BC7C7BBDCF9, 0x3159B4CD4BE0518A) == 0xCD4BE0518A1D4F0B
    ensures Joined5(0x3159B4CD4BE0518A, 0x647378D9C97E9FC8) == 0xD9C97E9FC83159B4
    ensures Joined1(0xCB00C391BB52283C, 0xA32E531B8B65D088) == 0x88CB00C391BB5228
    ensures Joined1(0xA32E531B8B65D088, 0x4EF90DA297486471) == 0x71A32E531B8B65D0
    ensures Joined1(0x4EF90DA297486471, 0xD8ACDEA946EF1938) == 0x384EF90DA2974864
    ensures Joined1(0xD8ACDEA946EF1938, 0x3F349CE33F76FAA8) == 0xA8D8ACDEA946EF19
    ensures Joined1(0x3F349CE33F76FAA8, 0x1D4F0BC7C7BBDCF9) == 0xF93F349CE33F76FA
    ensures Joined1(0x1D4F0BC7C7BBDCF9, 0x3159B4CD4BE0518A) == 0x8A1D4F0BC7C7BBDC
    ensures Joined1(0x3159B4CD4BE0518A, 0x647378D9C97E9FC8) == 0xC83159B4CD4BE051
    ensures Joined1(0x647378D9C97E9FC8, 0xC3EBD33483ACC5EA) == 0xEA647378D9C97E9F
    ensures Joined3(0xBE4BA423396CFEB8, 0x1CAD21F72C81017C) == 0x81017CBE4BA42339
    ensures Joined7(0x3F349CE33F76FAA8, 0x1D4F0BC7C7BBDCF9) == 0x4F0BC7C7BBDCF93F
    ensures Joined7(0x1D4F0BC7C7BBDCF9, 0x3159B4CD4BE0518A) == 0x59B4CD4BE0518A1D
    ensures Joined7(0x3159B4CD4BE0518A, 0x647378D9C97E9FC8) == 0x7378D9C97E9FC831
    ensures Joined7(0x647378D9C97E9FC8, 0xC3EBD33483ACC5EA) == 0xEBD33483ACC5EA64
  {
  }

  /** Where a long input is merged from. */
  lemma KeysAt11()
    ensures WordAt(KSecret(), 11) == 0x6DD4DE1CAD21F72C && WordAt(KSecret(), 19) == 0xA44072DB979083E9 && WordAt(KSecret(), 27) == 0xE679CB1F67B3B7A4
    ensures WordAt(KSecret(), 35) == 0xD05A8278E5C0CC4E && WordAt(KSecret(), 43) == 0x4608B82172FFCC7D && WordAt(KSecret(), 51) == 0x9035E08E2443F774
    ensures WordAt(KSecret(), 59) == 0x52283C4C263A81E6 && WordAt(KSecret(), 67) == 0x65D088CB00C391BB
  {
    hide KSecret, WordAt, Joined3;
    Keys();
    Joins();
    Straddle3(KSecret(), 8);
    Straddle3(KSecret(), 16);
    Straddle3(KSecret(), 24);
    Straddle3(KSecret(), 32);
    Straddle3(KSecret(), 40);
    Straddle3(KSecret(), 48);
    Straddle3(KSecret(), 56);
    Straddle3(KSecret(), 64);
  }

  /** Where the high word is merged from. */
  lemma KeysAt117()
    ensures WordAt(KSecret(), 117) == 0xD9C97E9FC83159B4 && WordAt(KSecret(), 125) == 0x3483ACC5EA647378
    ensures WordAt(KSecret(), 133) == 0xFAFFA081C5C3EBD3
    ensures WordAt(KSecret(), 141) == 0xB751DD0D17EB6313 && WordAt(KSecret(), 149) == 0x29265516D349DAF0
    ensures WordAt(KSecret(), 157) == 0x7D58BE162B9E68D4
    ensures WordAt(KSecret(), 165) == 0x7AD1B8F88FFCA147 && WordAt(KSecret(), 173) == 0x958F3ACB45CE31D0
  {
    hide KSecret, WordAt, Joined5;
    Keys();
    Joins();
    Straddle5(KSecret(), 112);
    Straddle5(KSecret(), 120);
    Straddle5(KSecret(), 128);
    Straddle5(KSecret(), 136);
    Straddle5(KSecret(), 144);
    Straddle5(KSecret(), 152);
    Straddle5(KSecret(), 160);
    Straddle5(KSecret(), 168);
  }

  /** What the last stripe is keyed with. */
  lemma KeysAt121()
    ensures WordAt(KSecret(), 121) == 0xEA647378D9C97E9F && WordAt(KSecret(), 129) == 0xC5C3EBD33483ACC5
    ensures WordAt(KSecret(), 137) == 0x17EB6313FAFFA081
    ensures WordAt(KSecret(), 145) == 0xD349DAF0B751DD0D && WordAt(KSecret(), 153) == 0x2B9E68D429265516
    ensures WordAt(KSecret(), 161) == 0x8FFCA1477D58BE16
    ensures WordAt(KSecret(), 169) == 0x45CE31D07AD1B8F8 && WordAt(KSecret(), 177) == 0xAF280416958F3ACB
  {
    hide KSecret, WordAt, Joined1;
    Keys();
    Joins();
    Straddle1(KSecret(), 120);
    Straddle1(KSecret(), 128);
    Straddle1(KSecret(), 136);
    Straddle1(KSecret(), 144);
    Straddle1(KSecret(), 152);
    Straddle1(KSecret(), 160);
    Straddle1(KSecret(), 168);
    Straddle1(KSecret(), 176);
  }

  /** The last two for a secret of 136 bytes. */
  lemma KeysAt61()
    ensures WordAt(KSecret(), 61) == 0x91BB52283C4C263A && WordAt(KSecret(), 69) == 0x1B8B65D088CB00C3 && WordAt(KSecret(), 77) == 0xA297486471A32E53
    ensures WordAt(KSecret(), 85) == 0xA946EF19384EF90D && WordAt(KSecret(), 93) == 0xE33F76FAA8D8ACDE && WordAt(KSecret(), 101) == 0xC7C7BBDCF93F349C
    ensures WordAt(KSecret(), 109) == 0xCD4BE0518A1D4F0B && WordAt(KSecret(), 117) == 0xD9C97E9FC83159B4
  {
    hide KSecret, WordAt, Joined5;
    Keys();
    Joins();
    Straddle5(KSecret(), 56);
    Straddle5(KSecret(), 64);
    Straddle5(KSecret(), 72);
    Straddle5(KSecret(), 80);
    Straddle5(KSecret(), 88);
    Straddle5(KSecret(), 96);
    Straddle5(KSecret(), 104);
    Straddle5(KSecret(), 112);
  }

  lemma KeysAt65()
    ensures WordAt(KSecret(), 65) == 0x88CB00C391BB5228 && WordAt(KSecret(), 73) == 0x71A32E531B8B65D0 && WordAt(KSecret(), 81) == 0x384EF90DA2974864
    ensures WordAt(KSecret(), 89) == 0xA8D8ACDEA946EF19 && WordAt(KSecret(), 97) == 0xF93F349CE33F76FA && WordAt(KSecret(), 105) == 0x8A1D4F0BC7C7BBDC
    ensures WordAt(KSecret(), 113) == 0xC83159B4CD4BE051 && WordAt(KSecret(), 121) == 0xEA647378D9C97E9F
  {
    hide KSecret, WordAt, Joined1;
    Keys();
    Joins();
    Straddle1(KSecret(), 64);
    Straddle1(KSecret(), 72);
    Straddle1(KSecret(), 80);
    Straddle1(KSecret(), 88);
    Straddle1(KSecret(), 96);
    Straddle1(KSecret(), 104);
    Straddle1(KSecret(), 112);
    Straddle1(KSecret(), 120);
  }

  /** What the last rounds of a medium input are keyed with. */
  lemma KeysOfMedium()
    ensures WordAt(KSecret(), 3) == 0x81017CBE4BA42339 && WordAt(KSecret(), 103) == 0x4F0BC7C7BBDCF93F && WordAt(KSecret(), 111) == 0x59B4CD4BE0518A1D
    ensures WordAt(KSecret(), 119) == 0x7378D9C97E9FC831 && WordAt(KSecret(), 127) == 0xEBD33483ACC5EA64
  {
    hide KSecret, WordAt, Joined3, Joined7;
    Keys();
    Joins();
    Straddle3(KSecret(), 0);
    Straddle7(KSecret(), 96);
    Straddle7(KSecret(), 104);
    Straddle7(KSecret(), 112);
    Straddle7(KSecret(), 120);
  }

  lemma SeedSteps()
    ensures Add64(0xBE4BA423396CFEB8, 0x9E3779B185EBCA8D) == 0x5C831DD4BF58C945 && Sub64(0x1CAD21F72C81017C, 0x9E3779B185EBCA8D) == 0x7E75A845A69536EF
    ensures Add64(0xDB979083E96DD4DE, 0x9E3779B185EBCA8D) == 0x79CF0A356F599F6B && Sub64(0x1F67B3B7A4A44072, 0x9E3779B185EBCA8D) == 0x81303A061EB875E5
    ensures Add64(0x78E5C0CC4EE679CB, 0x9E3779B185EBCA8D) == 0x171D3A7DD4D24458 && Sub64(0x2172FFCC7DD05A82, 0x9E3779B185EBCA8D) == 0x833B861AF7E48FF5
    ensures Add64(0x8E2443F7744608B8, 0x9E3779B185EBCA8D) == 0x2C5BBDA8FA31D345 && Sub64(0x4C263A81E69035E0, 0x9E3779B185EBCA8D) == 0xADEEC0D060A46B53
    ensures Add64(0xCB00C391BB52283C, 0x9E3779B185EBCA8D) == 0x69383D43413DF2C9 && Sub64(0xA32E531B8B65D088, 0x9E3779B185EBCA8D) == 0x04F6D96A057A05FB
    ensures Add64(0x4EF90DA297486471, 0x9E3779B185EBCA8D) == 0xED3087541D342EFE && Sub64(0xD8ACDEA946EF1938, 0x9E3779B185EBCA8D) == 0x3A7564F7C1034EAB
    ensures Add64(0x3F349CE33F76FAA8, 0x9E3779B185EBCA8D) == 0xDD6C1694C562C535 && Sub64(0x1D4F0BC7C7BBDCF9, 0x9E3779B185EBCA8D) == 0x7F17921641D0126C
    ensures Add64(0x3159B4CD4BE0518A, 0x9E3779B185EBCA8D) == 0xCF912E7ED1CC1C17 && Sub64(0x647378D9C97E9FC8, 0x9E3779B185EBCA8D) == 0xC63BFF284392D53B
    ensures Add64(0xC3EBD33483ACC5EA, 0x9E3779B185EBCA8D) == 0x62234CE609989077 && Sub64(0xEB6313FAFFA081C5, 0x9E3779B185EBCA8D) == 0x4D2B9A4979B4B738
    ensures Add64(0x49DAF0B751DD0D17, 0x9E3779B185EBCA8D) == 0xE8126A68D7C8D7A4 && Sub64(0x9E68D429265516D3, 0x9E3779B185EBCA8D) == 0x00315A77A0694C46
    ensures Add64(0xFCA1477D58BE162B, 0x9E3779B185EBCA8D) == 0x9AD8C12EDEA9E0B8 && Sub64(0xCE31D07AD1B8F88F, 0x9E3779B185EBCA8D) == 0x2FFA56C94BCD2E02
    ensures Add64(0x280416958F3ACB45, 0x9E3779B185EBCA8D) == 0xC63B9047152695D2 && Sub64(0x7E404BBBCAFBD7AF, 0x9E3779B185EBCA8D) == 0xE008D20A45100D22
  {
  }

  /** The words of the seed's secret. */
  lemma SeededKeys()
    ensures WordAt(SecretFromSeed(SEED), 0) == 0x5C831DD4BF58C945 && WordAt(SecretFromSeed(SEED), 8) == 0x7E75A845A69536EF
    ensures WordAt(SecretFromSeed(SEED), 16) == 0x79CF0A356F599F6B && WordAt(SecretFromSeed(SEED), 24) == 0x81303A061EB875E5
    ensures WordAt(SecretFromSeed(SEED), 32) == 0x171D3A7DD4D24458 && WordAt(SecretFromSeed(SEED), 40) == 0x833B861AF7E48FF5
    ensures WordAt(SecretFromSeed(SEED), 48) == 0x2C5BBDA8FA31D345 && WordAt(SecretFromSeed(SEED), 56) == 0xADEEC0D060A46B53
    ensures WordAt(SecretFromSeed(SEED), 64) == 0x69383D43413DF2C9 && WordAt(SecretFromSeed(SEED), 72) == 0x04F6D96A057A05FB
    ensures WordAt(SecretFromSeed(SEED), 80) == 0xED3087541D342EFE && WordAt(SecretFromSeed(SEED), 88) == 0x3A7564F7C1034EAB
    ensures WordAt(SecretFromSeed(SEED), 96) == 0xDD6C1694C562C535 && WordAt(SecretFromSeed(SEED), 104) == 0x7F17921641D0126C
    ensures WordAt(SecretFromSeed(SEED), 112) == 0xCF912E7ED1CC1C17 && WordAt(SecretFromSeed(SEED), 120) == 0xC63BFF284392D53B
    ensures WordAt(SecretFromSeed(SEED), 128) == 0x62234CE609989077 && WordAt(SecretFromSeed(SEED), 136) == 0x4D2B9A4979B4B738
    ensures WordAt(SecretFromSeed(SEED), 144) == 0xE8126A68D7C8D7A4 && WordAt(SecretFromSeed(SEED), 152) == 0x00315A77A0694C46
    ensures WordAt(SecretFromSeed(SEED), 160) == 0x9AD8C12EDEA9E0B8 && WordAt(SecretFromSeed(SEED), 168) == 0x2FFA56C94BCD2E02
    ensures WordAt(SecretFromSeed(SEED), 176) == 0xC63B9047152695D2 && WordAt(SecretFromSeed(SEED), 184) == 0xE008D20A45100D22
  {
    hide KSecret, SecretFromSeed, WordAt, Add64, Sub64;
    Keys();
    SeedSteps();
    SeededWords(SEED, 0);
    SeededWords(SEED, 1);
    SeededWords(SEED, 2);
    SeededWords(SEED, 3);
    SeededWords(SEED, 4);
    SeededWords(SEED, 5);
    SeededWords(SEED, 6);
    SeededWords(SEED, 7);
    SeededWords(SEED, 8);
    SeededWords(SEED, 9);
    SeededWords(SEED, 10);
    SeededWords(SEED, 11);
  }

  lemma SeededJoins()
    ensures Joined3(0x7E75A845A69536EF, 0x79CF0A356F599F6B) == 0x599F6B7E75A845A6
    ensures Joined3(0x79CF0A356F599F6B, 0x81303A061EB875E5) == 0xB875E579CF0A356F
    ensures Joined3(0x81303A061EB875E5, 0x171D3A7DD4D24458) == 0xD2445881303A061E
    ensures Joined3(0x171D3A7DD4D24458, 0x833B861AF7E48FF5) == 0xE48FF5171D3A7DD4
    ensures Joined3(0x833B861AF7E48FF5, 0x2C5BBDA8FA31D345) == 0x31D345833B861AF7
    ensures Joined3(0x2C5BBDA8FA31D345, 0xADEEC0D060A46B53) == 0xA46B532C5BBDA8FA
    ensures Joined3(0xADEEC0D060A46B53, 0x69383D43413DF2C9) == 0x3DF2C9ADEEC0D060
    ensures Joined3(0x69383D43413DF2C9, 0x04F6D96A057A05FB) == 0x7A05FB69383D4341
    ensures Joined5(0xCF912E7ED1CC1C17, 0xC63BFF284392D53B) == 0x284392D53BCF912E
    ensures Joined5(0xC63BFF284392D53B, 0x62234CE609989077) == 0xE609989077C63BFF
    ensures Joined5(0x62234CE609989077, 0x4D2B9A4979B4B738) == 0x4979B4B73862234C
    ensures Joined5(0x4D2B9A4979B4B738, 0xE8126A68D7C8D7A4) == 0x68D7C8D7A44D2B9A
    ensures Joined5(0xE8126A68D7C8D7A4, 0x00315A77A0694C46) == 0x77A0694C46E8126A
    ensures Joined5(0x00315A77A0694C46, 0x9AD8C12EDEA9E0B8) == 0x2EDEA9E0B800315A
    ensures Joined5(0x9AD8C12EDEA9E0B8, 0x2FFA56C94BCD2E02) == 0xC94BCD2E029AD8C1
    ensures Joined5(0x2FFA56C94BCD2E02, 0xC63B9047152695D2) == 0x47152695D22FFA56
    ensures Joined1(0xC63BFF284392D53B, 0x62234CE609989077) == 0x77C63BFF284392D5
    ensures Joined1(0x62234CE609989077, 0x4D2B9A4979B4B738) == 0x3862234CE6099890
    ensures Joined1(0x4D2B9A4979B4B738, 0xE8126A68D7C8D7A4) == 0xA44D2B9A4979B4B7
    ensures Joined1(0xE8126A68D7C8D7A4, 0x00315A77A0694C46) == 0x46E8126A68D7C8D7
    ensures Joined1(0x00315A77A0694C46, 0x9AD8C12EDEA9E0B8) == 0xB800315A77A0694C
    ensures Joined1(0x9AD8C12EDEA9E0B8, 0x2FFA56C94BCD2E02) == 0x029AD8C12EDEA9E0
    ensures Joined1(0x2FFA56C94BCD2E02, 0xC63B9047152695D2) == 0xD22FFA56C94BCD2E
    ensures Joined1(0xC63B9047152695D2, 0xE008D20A45100D22) == 0x22C63B9047152695
  {
  }

  lemma SeededAt11()
    ensures WordAt(SecretFromSeed(SEED), 11) == 0x599F6B7E75A845A6 && WordAt(SecretFromSeed(SEED), 19) == 0xB875E579CF0A356F
    ensures WordAt(SecretFromSeed(SEED), 27) == 0xD2445881303A061E && WordAt(SecretFromSeed(SEED), 35) == 0xE48FF5171D3A7DD4
    ensures WordAt(SecretFromSeed(SEED), 43) == 0x31D345833B861AF7 && WordAt(SecretFromSeed(SEED), 51) == 0xA46B532C5BBDA8FA
    ensures WordAt(SecretFromSeed(SEED), 59) == 0x3DF2C9ADEEC0D060 && WordAt(SecretFromSeed(SEED), 67) == 0x7A05FB69383D4341
  {
    hide SecretFromSeed, WordAt, Joined3;
    SeededKeys();
    SeededJoins();
    Straddle3(SecretFromSeed(SEED), 8);
    Straddle3(SecretFromSeed(SEED), 16);
    Straddle3(SecretFromSeed(SEED), 24);
    Straddle3(SecretFromSeed(SEED), 32);
    Straddle3(SecretFromSeed(SEED), 40);
    Straddle3(SecretFromSeed(SEED), 48);
    Straddle3(SecretFromSeed(SEED), 56);
    Straddle3(SecretFromSeed(SEED), 64);
  }

  lemma SeededAt117()
    ensures WordAt(SecretFromSeed(SEED), 117) == 0x284392D53BCF912E && WordAt(SecretFromSeed(SEED), 125) == 0xE609989077C63BFF
    ensures WordAt(SecretFromSeed(SEED), 133) == 0x4979B4B73862234C && WordAt(SecretFromSeed(SEED), 141) == 0x68D7C8D7A44D2B9A
    ensures WordAt(SecretFromSeed(SEED), 149) == 0x77A0694C46E8126A && WordAt(SecretFromSeed(SEED), 157) == 0x2EDEA9E0B800315A
    ensures WordAt(SecretFromSeed(SEED), 165) == 0xC94BCD2E029AD8C1 && WordAt(SecretFromSeed(SEED), 173) == 0x47152695D22FFA56
  {
    hide SecretFromSeed, WordAt, Joined5;
    SeededKeys();
    SeededJoins();
    Straddle5(SecretFromSeed(SEED), 112);
    Straddle5(SecretFromSeed(SEED), 120);
    Straddle5(SecretFromSeed(SEED), 128);
    Straddle5(SecretFromSeed(SEED), 136);
    Straddle5(SecretFromSeed(SEED), 144);
    Straddle5(SecretFromSeed(SEED), 152);
    Straddle5(SecretFromSeed(SEED), 160);
    Straddle5(SecretFromSeed(SEED), 168);
  }

  lemma SeededAt121()
    ensures WordAt(SecretFromSeed(SEED), 121) == 0x77C63BFF284392D5 && WordAt(SecretFromSeed(SEED), 129) == 0x3862234CE6099890
    ensures WordAt(SecretFromSeed(SEED), 137) == 0xA44D2B9A4979B4B7 && WordAt(SecretFromSeed(SEED), 145) == 0x46E8126A68D7C8D7
    ensures WordAt(SecretFromSeed(SEED), 153) == 0xB800315A77A0694C && WordAt(SecretFromSeed(SEED), 161) == 0x029AD8C12EDEA9E0
    ensures WordAt(SecretFromSeed(SEED), 169) == 0xD22FFA56C94BCD2E && WordAt(SecretFromSeed(SEED), 177) == 0x22C63B9047152695
  {
    hide SecretFromSeed, WordAt, Joined1;
    SeededKeys();
    SeededJoins();
    Straddle1(SecretFromSeed(SEED), 120);
    Straddle1(SecretFromSeed(SEED), 128);
    Straddle1(SecretFromSeed(SEED), 136);
    Straddle1(SecretFromSeed(SEED), 144);
    Straddle1(SecretFromSeed(SEED), 152);
    Straddle1(SecretFromSeed(SEED), 160);
    Straddle1(SecretFromSeed(SEED), 168);
    Straddle1(SecretFromSeed(SEED), 176);
  }
}
