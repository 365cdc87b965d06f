/** The software AES round instructions, as the 32-bit and the 64-bit ARM build compute them. Each is
    the transformation of FIPS 197 that the x86 instruction stands for. */
module AesRounds {
  import opened Aes
  import opened AesTables
  import opened Mixing
  import opened Words

  // ---- aesenc, 32-bit build: four tables of words ----

  function B2W(b0: bv32, b1: bv32, b2: bv32, b3: bv32): bv32 {
    (b3 << 24) | (b2 << 16) | (b1 << 8) | b0
  }

  function F2(x: bv32): bv32 { (x << 1) ^ (((x >> 7) & 1) * 0x011b) }
  function F3(x: bv32): bv32 { F2(x) ^ x }
  function Wide(p: Byte): bv32 { p as bv32 }

  function U0(p: bv32): bv32 { B2W(F2(p), p, p, F3(p)) }
  function U1(p: bv32): bv32 { B2W(F3(p), F2(p), p, p) }
  function U2(p: bv32): bv32 { B2W(p, F3(p), F2(p), p) }
  function U3(p: bv32): bv32 { B2W(p, p, F3(p), F2(p)) }

  function AesTable0(b: Byte): bv32 { U0(Wide(Sbox(b))) }
  function AesTable1(b: Byte): bv32 { U1(Wide(Sbox(b))) }
  function AesTable2(b: Byte): bv32 { U2(Wide(Sbox(b))) }
  function AesTable3(b: Byte): bv32 { U3(Wide(Sbox(b))) }

  function Byte0(x: bv32): Byte { (x & 0xff) as Byte }
  function Byte1(x: bv32): Byte { ((x >> 8) & 0xff) as Byte }
  function Byte2(x: bv32): Byte { ((x >> 16) & 0xff) as Byte }
  function Byte3(x: bv32): Byte { (x >> 24) as Byte }

  function Xor4(a: bv32, b: bv32, c: bv32, d: bv32): bv32 { Xor32(Xor32(Xor32(a, b), c), d) }

  function Word(a: Block, k: nat): bv32
    requires k < 4
  {
    ReadLE32(a[4 * k..4 * k + 4])
  }

  /** One output column from the four words, each giving the byte of its own row. */
  function TableColumn(p: bv32, q: bv32, r: bv32, s: bv32): bv32 {
    Xor4(AesTable0(Byte0(p)), AesTable1(Byte1(q)), AesTable2(Byte2(r)), AesTable3(Byte3(s)))
  }

  function ColumnBytes(w: bv32): (s: Bytes)
    ensures |s| == 4
  {
    [Byte0(w), Byte1(w), Byte2(w), Byte3(w)]
  }

  function SetWords(w0: bv32, w1: bv32, w2: bv32, w3: bv32): Block {
    ColumnBytes(w0) + ColumnBytes(w1) + ColumnBytes(w2) + ColumnBytes(w3)
  }

  function AesEncTables(a: Block, roundKey: Block): Block {
    var x0, x1, x2, x3 := Word(a, 0), Word(a, 1), Word(a, 2), Word(a, 3);
    AddRoundKey(SetWords(TableColumn(x0, x1, x2, x3), TableColumn(x1, x2, x3, x0),
                         TableColumn(x2, x3, x0, x1), TableColumn(x3, x0, x1, x2)), roundKey)
  }

  lemma U0Bytes(p: Byte)
    ensures ColumnBytes(U0(Wide(p))) == [Xt(p), p, p, By3(p)]
  {
  }

  lemma U1Bytes(p: Byte)
    ensures ColumnBytes(U1(Wide(p))) == [By3(p), Xt(p), p, p]
  {
  }

  lemma U2Bytes(p: Byte)
    ensures ColumnBytes(U2(Wide(p))) == [p, By3(p), Xt(p), p]
  {
  }

  lemma U3Bytes(p: Byte)
    ensures ColumnBytes(U3(Wide(p))) == [p, p, By3(p), Xt(p)]
  {
  }

  lemma XorBytes(a: bv32, b: bv32)
    ensures Byte0(a ^ b) == Xor8(Byte0(a), Byte0(b)) && Byte1(a ^ b) == Xor8(Byte1(a), Byte1(b))
    ensures Byte2(a ^ b) == Xor8(Byte2(a), Byte2(b)) && Byte3(a ^ b) == Xor8(Byte3(a), Byte3(b))
  {
  }

  lemma XorColumnBytes(a: bv32, b: bv32, i: nat)
    requires i < 4
    ensures ColumnBytes(Xor32(a, b))[i] == Xor8(ColumnBytes(a)[i], ColumnBytes(b)[i])
  {
    hide Byte0, Byte1, Byte2, Byte3, Xor8, Xor32;
    BytesOfXor(a, b);
  }

  lemma BytesOfXor(a: bv32, b: bv32)
    ensures Byte0(Xor32(a, b)) == Xor8(Byte0(a), Byte0(b)) && Byte1(Xor32(a, b)) == Xor8(Byte1(a), Byte1(b))
    ensures Byte2(Xor32(a, b)) == Xor8(Byte2(a), Byte2(b)) && Byte3(Xor32(a, b)) == Xor8(Byte3(a), Byte3(b))
  {
    hide Byte0, Byte1, Byte2, Byte3, Xor8, Xor32;
    XorWritten(a, b);
    XorBytes(a, b);
  }

  lemma XorWritten(a: bv32, b: bv32)
    ensures Xor32(a, b) == a ^ b
  {
  }

  lemma Xor4Bytes(a: bv32, b: bv32, c: bv32, d: bv32, i: nat)
    requires i < 4
    ensures ColumnBytes(Xor4(a, b, c, d))[i] == Sum(ColumnBytes(a)[i], ColumnBytes(b)[i], ColumnBytes(c)[i], ColumnBytes(d)[i])
  {
    hide ColumnBytes, Xor32, Xor8, Sum;
    XorColumnBytes(a, b, i);
    XorColumnBytes(Xor32(a, b), c, i);
    XorColumnBytes(Xor32(Xor32(a, b), c), d, i);
    SumAsXors(ColumnBytes(a)[i], ColumnBytes(b)[i], ColumnBytes(c)[i], ColumnBytes(d)[i]);
  }

  lemma WordBytes(a: Block, k: nat)
    requires k < 4
    ensures Byte0(Word(a, k)) == a[4 * k] && Byte1(Word(a, k)) == a[4 * k + 1]
    ensures Byte2(Word(a, k)) == a[4 * k + 2] && Byte3(Word(a, k)) == a[4 * k + 3]
  {
  }

  /** A byte of a column is the sum of what the four words hold there. */
  lemma TableColumnSums(p: bv32, q: bv32, r: bv32, s: bv32)
    ensures var (t, u, v, w) := (U0(Wide(Sbox(Byte0(p)))), U1(Wide(Sbox(Byte1(q)))), U2(Wide(Sbox(Byte2(r)))), U3(Wide(Sbox(Byte3(s)))));
            forall i :: 0 <= i < 4
                        ==> ColumnBytes(TableColumn(p, q, r, s))[i] == Sum(ColumnBytes(t)[i], ColumnBytes(u)[i], ColumnBytes(v)[i], ColumnBytes(w)[i])
  {
    hide ColumnBytes, Xor4, Sum, Sbox, U0, U1, U2, U3, Wide, Byte0, Byte1, Byte2, Byte3;
    var t, u, v, w := U0(Wide(Sbox(Byte0(p)))), U1(Wide(Sbox(Byte1(q)))), U2(Wide(Sbox(Byte2(r)))), U3(Wide(Sbox(Byte3(s))));
    forall i | 0 <= i < 4
      ensures ColumnBytes(TableColumn(p, q, r, s))[i] == Sum(ColumnBytes(t)[i], ColumnBytes(u)[i], ColumnBytes(v)[i], ColumnBytes(w)[i])
    {
      Xor4Bytes(t, u, v, w, i);
    }
  }

  lemma SumsMix(column: seq<Byte>, a: Byte, b: Byte, c: Byte, d: Byte)
    requires |column| == 4 && column[0] == Sum(Xt(a), By3(b), c, d) && column[1] == Sum(a, Xt(b), By3(c), d)
    requires column[2] == Sum(a, b, Xt(c), By3(d)) && column[3] == Sum(By3(a), b, c, Xt(d))
    ensures column == [Mix(a, b, c, d), Mix(b, c, d, a), Mix(c, d, a, b), Mix(d, a, b, c)]
  {
    hide Sum, Xt, By3;
    Rotated(Xt(b), By3(c), d, a);
    Rotated(Xt(c), By3(d), a, b);
    Rotated(Xt(d), By3(a), b, c);
  }

  /** The tables hold substitution and mixing in one: their sum is a mixed column. */
  lemma TableColumnMixes(p: bv32, q: bv32, r: bv32, s: bv32)
    ensures var (a, b, c, d) := (Sbox(Byte0(p)), Sbox(Byte1(q)), Sbox(Byte2(r)), Sbox(Byte3(s)));
            ColumnBytes(TableColumn(p, q, r, s)) == [Mix(a, b, c, d), Mix(b, c, d, a), Mix(c, d, a, b), Mix(d, a, b, c)]
  {
    hide ColumnBytes, TableColumn, Sum, Sbox, Xt, By3, Mix, U0, U1, U2, U3, Wide, Byte0, Byte1, Byte2, Byte3;
    var a, b, c, d := Sbox(Byte0(p)), Sbox(Byte1(q)), Sbox(Byte2(r)), Sbox(Byte3(s));
    TableColumnSums(p, q, r, s);
    U0Bytes(a);
    U1Bytes(b);
    U2Bytes(c);
    U3Bytes(d);
    SumsMix(ColumnBytes(TableColumn(p, q, r, s)), a, b, c, d);
  }

  /** The columns that come together in column k. */
  predicate Next(k: nat, k1: nat, k2: nat, k3: nat) {
    k < 4 && k1 == (k + 1) % 4 && k2 == (k + 2) % 4 && k3 == (k + 3) % 4
  }

  lemma ShiftedColumn(a: Block, k: nat, k1: nat, k2: nat, k3: nat)
    requires Next(k, k1, k2, k3)
    ensures var s := ShiftRows(a);
            s[4 * k] == a[4 * k] && s[4 * k + 1] == a[4 * k1 + 1] && s[4 * k + 2] == a[4 * k2 + 2] && s[4 * k + 3] == a[4 * k3 + 3]
  {
  }

  lemma DownsInColumn(k: nat)
    requires k < 4
    ensures Down(4 * k, 1) == 4 * k + 1 && Down(4 * k, 2) == 4 * k + 2 && Down(4 * k, 3) == 4 * k + 3
    ensures Down(4 * k + 1, 1) == 4 * k + 2 && Down(4 * k + 1, 2) == 4 * k + 3 && Down(4 * k + 1, 3) == 4 * k
    ensures Down(4 * k + 2, 1) == 4 * k + 3 && Down(4 * k + 2, 2) == 4 * k && Down(4 * k + 2, 3) == 4 * k + 1
    ensures Down(4 * k + 3, 1) == 4 * k && Down(4 * k + 3, 2) == 4 * k + 1 && Down(4 * k + 3, 3) == 4 * k + 2
  {
  }

  lemma MixedColumn(s: Block, k: nat)
    requires k < 4
    ensures var (m, a, b, c, d) := (MixColumns(s), s[4 * k], s[4 * k + 1], s[4 * k + 2], s[4 * k + 3]);
            [m[4 * k], m[4 * k + 1], m[4 * k + 2], m[4 * k + 3]]
            == [Mix(a, b, c, d), Mix(b, c, d, a), Mix(c, d, a, b), Mix(d, a, b, c)]
  {
    hide Mix, Down;
    DownsInColumn(k);
  }

  lemma RoundColumn(a: Block, k: nat, k1: nat, k2: nat, k3: nat)
    requires Next(k, k1, k2, k3)
    ensures k < 4 && k1 < 4 && k2 < 4 && k3 < 4
    ensures var m := MixColumns(SubBytes(ShiftRows(a)));
            ColumnBytes(TableColumn(Word(a, k), Word(a, k1), Word(a, k2), Word(a, k3)))
            == [m[4 * k], m[4 * k + 1], m[4 * k + 2], m[4 * k + 3]]
  {
    assert k < 4 && k1 < 4 && k2 < 4 && k3 < 4;
    hide Next, TableColumn, Word, Byte0, Byte1, Byte2, Byte3, Sbox, Mix, ColumnBytes, ShiftRows, MixColumns;
    WordBytes(a, k);
    WordBytes(a, k1);
    WordBytes(a, k2);
    WordBytes(a, k3);
    ShiftedColumn(a, k, k1, k2, k3);
    MixedColumn(SubBytes(ShiftRows(a)), k);
    TableColumnMixes(Word(a, k), Word(a, k1), Word(a, k2), Word(a, k3));
  }

  /** The table build is the round. */
  lemma AesEncTablesIsRound(a: Block, roundKey: Block)
    ensures AesEncTables(a, roundKey) == EncRound(a, roundKey)
  {
    hide TableColumn, Word, ColumnBytes, AddRoundKey, MixColumns, SubBytes, ShiftRows;
    RoundColumn(a, 0, 1, 2, 3);
    RoundColumn(a, 1, 2, 3, 0);
    RoundColumn(a, 2, 3, 0, 1);
    RoundColumn(a, 3, 0, 1, 2);
    var m := MixColumns(SubBytes(ShiftRows(a)));
    assert m == [m[0], m[1], m[2], m[3]] + [m[4], m[5], m[6], m[7]] + [m[8], m[9], m[10], m[11]] + [m[12], m[13], m[14], m[15]];
  }

  // ---- aesenc, 64-bit build: sixteen lanes at a time ----

  const SHIFT_ROWS: seq<nat> := [0, 5, 10, 15, 4, 9, 14, 3, 8, 13, 2, 7, 12, 1, 6, 11]
  const INV_SHIFT_ROWS: seq<nat> := [0, 13, 10, 7, 4, 1, 14, 11, 8, 5, 2, 15, 12, 9, 6, 3]
  const ROR32_BY_8: seq<nat> := [1, 2, 3, 0, 5, 6, 7, 4, 9, 10, 11, 8, 13, 14, 15, 12]

  predicate IsLaneTable(t: seq<nat>) {
    |t| == 16 && forall i :: 0 <= i < 16 ==> t[i] < 16
  }

  /** vqtbl1q_u8: lane i takes lane t[i]. */
  function Permute(v: Block, t: seq<nat>): Block
    requires IsLaneTable(t)
  {
    seq(16, i requires 0 <= i < 16 => v[t[i]])
  }

  /** vrev32q_u16: the 16-bit halves of every 32-bit group change places. */
  function Rev32(v: Block): Block {
    seq(16, i requires 0 <= i < 16 => v[if i % 4 < 2 then i + 2 else i - 2])
  }

  function XorLanes(v: Block, w: Block): Block {
    AddRoundKey(v, w)
  }

  /** Shift left and xor in the polynomial under a mask made by an arithmetic shift of the top bit. */
  function DoubleLane(x: Byte): Byte { (x << 1) ^ ((if x & 0x80 != 0 then 0xFF else 0) & 0x1b) }
  function Double(v: Block): Block { seq(16, i requires 0 <= i < 16 => DoubleLane(v[i])) }

  lemma DoubleLaneIsXt(x: Byte)
    ensures DoubleLane(x) == Xt(x)
  {
  }

  /** vqtbl4q_u8 and vqtbx4q_u8: 64 bytes of a table, and what an index past them leaves. */
  function Lookup64(sbox: Byte -> Byte, from: Byte, index: Byte, otherwise: Byte): Byte {
    if index < 64 then sbox(from + index) else otherwise
  }

  function FourLookups(sbox: Byte -> Byte, w: Byte): Byte {
    Lookup64(sbox, 0xc0, w - 0xc0,
             Lookup64(sbox, 0x80, w - 0x80,
                      Lookup64(sbox, 0x40, w - 0x40, Lookup64(sbox, 0, w, 0))))
  }

  lemma FourLookupsAreOne(sbox: Byte -> Byte, w: Byte)
    ensures FourLookups(sbox, w) == sbox(w)
  {
    assert 0x40 + (w - 0x40) == w && 0x80 + (w - 0x80) == w && 0xc0 + (w - 0xc0) == w && 0 + w == w;
  }

  function LookUp(sbox: Byte -> Byte, w: Block): Block {
    seq(16, i requires 0 <= i < 16 => FourLookups(sbox, w[i]))
  }

  lemma PermutationShifts(v: Block)
    ensures IsLaneTable(SHIFT_ROWS) && Permute(v, SHIFT_ROWS) == ShiftRows(v)
  {
  }

  lemma PermutationShiftsBack(v: Block)
    ensures IsLaneTable(INV_SHIFT_ROWS) && Permute(v, INV_SHIFT_ROWS) == InvShiftRows(v)
  {
  }

  lemma PermutationTurnsColumns(v: Block, i: nat)
    requires i < 16
    ensures IsLaneTable(ROR32_BY_8) && Permute(v, ROR32_BY_8)[i] == v[Down(i, 1)]
    ensures Rev32(v)[i] == v[Down(i, 2)]
  {
  }

  lemma LookUpIsSubstitution(w: Block)
    ensures LookUp(Sbox, w) == SubBytes(w) && LookUp(Rsbox, w) == InvSubBytes(w)
  {
    hide Sbox, Rsbox, FourLookups;
    forall i | 0 <= i < 16
      ensures LookUp(Sbox, w)[i] == Sbox(w[i]) && LookUp(Rsbox, w)[i] == Rsbox(w[i])
    {
      FourLookupsAreOne(Sbox, w[i]);
      FourLookupsAreOne(Rsbox, w[i]);
    }
  }

  /** One lane of the mixing below, with the lanes further down its column. */
  lemma MixedLane(a: Byte, b: Byte, c: Byte, d: Byte)
    ensures Xor8(Xor8(DoubleLane(a), c), Xor8(b, Xor8(DoubleLane(b), d))) == Mix(a, b, c, d)
  {
    hide Xor8, Xt, DoubleLane, Sum;
    DoubleLaneIsXt(a);
    DoubleLaneIsXt(b);
    SumAsXors(Xt(a), By3(b), c, d);
    XorAssociates(Xt(a), c, Xor8(b, Xor8(Xt(b), d)));
    XorAssociates(b, Xt(b), d);
    XorSwaps(b, Xt(b));
    XorAssociates(c, By3(b), d);
    XorSwaps(c, By3(b));
    XorAssociates(Xt(a), By3(b), Xor8(c, d));
    XorAssociates(By3(b), c, d);
    XorAssociates(Xor8(Xt(a), By3(b)), c, d);
  }

  method MixLanes(v: Block) returns (w: Block)
    ensures w == MixColumns(v)
  {
    hide Xor8, DoubleLane, Mix, Down;
    PermutationTurnsColumns(v, 0);
    w := Double(v);
    w := XorLanes(w, Rev32(v));
    var half := w;
    w := XorLanes(w, Permute(XorLanes(v, w), ROR32_BY_8));
    forall i | 0 <= i < 16 ensures w[i] == MixColumns(v)[i] {
      PermutationTurnsColumns(v, i);
      PermutationTurnsColumns(XorLanes(v, half), i);
      PermutationTurnsColumns(v, Down(i, 1));
      DownTwice(i);
      MixedLane(v[i], v[Down(i, 1)], v[Down(i, 2)], v[Down(i, 3)]);
    }
  }

  method AesEncLanes(a: Block, roundKey: Block) returns (r: Block)
    ensures r == EncRound(a, roundKey)
  {
    hide MixColumns, SubBytes, ShiftRows, Permute, LookUp, AddRoundKey;
    PermutationShifts(a);
    var w := Permute(a, SHIFT_ROWS);
    LookUpIsSubstitution(w);
    var v := LookUp(Sbox, w);
    w := MixLanes(v);
    r := XorLanes(w, roundKey);
  }

  method AesEncLastLanes(a: Block, roundKey: Block) returns (r: Block)
    ensures r == EncLastRound(a, roundKey)
  {
    hide SubBytes, ShiftRows, Permute, LookUp, AddRoundKey;
    PermutationShifts(a);
    var w := Permute(a, SHIFT_ROWS);
    LookUpIsSubstitution(w);
    var v := LookUp(Sbox, w);
    r := XorLanes(v, roundKey);
  }

  // ---- aesdec, aesimc, 64-bit build ----

  function By5(x: Byte): Byte { Xor8(x, Xt2(x)) }

  lemma FiveAndFour(x: Byte)
    ensures Xor8(Xt(By5(x)), Xt2(x)) == By14(x) && Xor8(By3(By5(x)), Xt2(x)) == By11(x)
    ensures Xor8(By5(x), Xt(Xt2(x))) == By13(x) && Xor8(By5(x), By3(Xt2(x))) == By9(x)
  {
  }

  /** Adding four times the column and its half turn first makes the plain mixing the inverse one. */
  lemma PreMixed(a: Byte, b: Byte, c: Byte, d: Byte)
    ensures Mix(Xor8(By5(a), Xt2(c)), Xor8(By5(b), Xt2(d)), Xor8(By5(c), Xt2(a)), Xor8(By5(d), Xt2(b))) == InvMix(a, b, c, d)
  {
    hide Xor8, Xt, Xt2, By3, By5, By9, By11, By13, By14, Sum;
    XtLinear(By5(a), Xt2(c));
    CoefficientsLinear(By5(b), Xt2(d));
    SumOfXors(Xt(By5(a)), By3(By5(b)), By5(c), By5(d), Xt(Xt2(c)), By3(Xt2(d)), Xt2(a), Xt2(b));
    Rotated(Xt(Xt2(c)), By3(Xt2(d)), Xt2(a), Xt2(b));
    SumOfXors(Xt(By5(a)), By3(By5(b)), By5(c), By5(d), Xt2(a), Xt2(b), Xt(Xt2(c)), By3(Xt2(d)));
    FiveAndFour(a);
    FiveAndFour(b);
    FiveAndFour(c);
    FiveAndFour(d);
  }

  method PreMixLanes(a: Block) returns (v: Block)
    ensures MixColumns(v) == InvMixColumns(a)
  {
    hide Xor8, DoubleLane, Xt, Mix, InvMix, Down, MixColumns, InvMixColumns;
    v := a;
    var w := Double(v);
    w := Double(w);
    v := XorLanes(v, w);
    v := XorLanes(v, Rev32(w));
    forall i | 0 <= i < 16 ensures v[i] == Xor8(By5(a[i]), Xt2(a[Down(i, 2)])) {
      PermutationTurnsColumns(w, i);
      DoubleLaneIsXt(a[i]);
      DoubleLaneIsXt(Xt(a[i]));
      DoubleLaneIsXt(a[Down(i, 2)]);
      DoubleLaneIsXt(Xt(a[Down(i, 2)]));
    }
    PreMixedColumns(v, a);
  }

  lemma PreMixedColumns(v: Block, a: Block)
    requires forall i :: 0 <= i < 16 ==> v[i] == Xor8(By5(a[i]), Xt2(a[Down(i, 2)]))
    ensures MixColumns(v) == InvMixColumns(a)
  {
    hide Xor8, By5, Xt2, Mix, InvMix, Down;
    forall i | 0 <= i < 16 ensures MixColumns(v)[i] == InvMixColumns(a)[i] {
      DownTwice(i);
      PreMixed(a[i], a[Down(i, 1)], a[Down(i, 2)], a[Down(i, 3)]);
    }
  }

  method AesImcLanes(a: Block) returns (w: Block)
    ensures w == InvMixColumns(a)
  {
    hide MixColumns, InvMixColumns;
    var v := PreMixLanes(a);
    w := MixLanes(v);
  }

  method AesDecLanes(a: Block, roundKey: Block) returns (r: Block)
    ensures r == DecRound(a, roundKey)
  {
    hide MixColumns, InvMixColumns, InvSubBytes, InvShiftRows, Permute, LookUp, AddRoundKey;
    PermutationShiftsBack(a);
    var w := Permute(a, INV_SHIFT_ROWS);
    LookUpIsSubstitution(w);
    var v := LookUp(Rsbox, w);
    v := PreMixLanes(v);
    w := MixLanes(v);
    r := XorLanes(w, roundKey);
  }

  method AesDecLastLanes(a: Block, roundKey: Block) returns (r: Block)
    ensures r == DecLastRound(a, roundKey)
  {
    hide InvSubBytes, InvShiftRows, Permute, LookUp, AddRoundKey;
    PermutationShiftsBack(a);
    var w := Permute(a, INV_SHIFT_ROWS);
    LookUpIsSubstitution(w);
    var v := LookUp(Rsbox, w);
    r := XorLanes(v, roundKey);
  }

  // ---- aesenclast, aesdec, aesdeclast, aesimc, 32-bit build ----

  function AesEncLastPicked(a: Block, roundKey: Block): Block {
    AddRoundKey([Sbox(a[0]), Sbox(a[5]), Sbox(a[10]), Sbox(a[15]), Sbox(a[4]), Sbox(a[9]), Sbox(a[14]), Sbox(a[3]),
                 Sbox(a[8]), Sbox(a[13]), Sbox(a[2]), Sbox(a[7]), Sbox(a[12]), Sbox(a[1]), Sbox(a[6]), Sbox(a[11])],
                roundKey)
  }

  lemma SixteenShifted(a: Block)
    ensures IsLaneTable(SHIFT_ROWS)
    ensures Permute(a, SHIFT_ROWS)
            == [a[0], a[5], a[10], a[15], a[4], a[9], a[14], a[3], a[8], a[13], a[2], a[7], a[12], a[1], a[6], a[11]]
  {
  }

  lemma SixteenSubstituted(s: Block)
    ensures SubBytes(s)
            == [Sbox(s[0]), Sbox(s[1]), Sbox(s[2]), Sbox(s[3]), Sbox(s[4]), Sbox(s[5]), Sbox(s[6]), Sbox(s[7]),
                Sbox(s[8]), Sbox(s[9]), Sbox(s[10]), Sbox(s[11]), Sbox(s[12]), Sbox(s[13]), Sbox(s[14]), Sbox(s[15])]
  {
    hide Sbox;
  }

  lemma AesEncLastPickedIsRound(a: Block, roundKey: Block)
    ensures AesEncLastPicked(a, roundKey) == EncLastRound(a, roundKey)
  {
    hide Sbox, AddRoundKey, ShiftRows, SubBytes, Permute;
    PermutationShifts(a);
    SixteenShifted(a);
    SixteenSubstituted(Permute(a, SHIFT_ROWS));
  }

  /** Doubling on promoted operands: the bit that leaves the byte is not cleared, it only drops out at the end. */
  function XtWide(x: bv16): bv16 { (x << 1) ^ (((x >> 7) & 1) * 0x1b) }
  function Promote(x: Byte): bv16 { x as bv16 }
  function Truncate(x: bv16): Byte { (x & 0xFF) as Byte }

  function XorTwo(a: bv16, b: bv16): bv16 { a ^ b }
  function TimesBit(y: bv16, k: bv5, v: bv16): bv16
    requires k <= 4
  {
    ((y >> k) & 1) * v
  }

  /** The bits of y choose among the doublings of a factor. */
  function Chosen(y: bv16, x: bv16, x1: bv16, x2: bv16, x3: bv16, x4: bv16): bv16 {
    XorTwo(XorTwo(XorTwo(XorTwo(TimesBit(y, 0, x), TimesBit(y, 1, x1)), TimesBit(y, 2, x2)), TimesBit(y, 3, x3)), TimesBit(y, 4, x4))
  }

  function Multiply(x: bv16, y: bv16): bv16 {
    Chosen(y, x, XtWide(x), XtWide(XtWide(x)), XtWide(XtWide(XtWide(x))), XtWide(XtWide(XtWide(XtWide(x)))))
  }

  lemma TruncateXor(a: bv16, b: bv16)
    ensures Truncate(XorTwo(a, b)) == Xor8(Truncate(a), Truncate(b))
  {
  }

  lemma TruncateXt(w: bv16)
    ensures Truncate(XtWide(w)) == Xt(Truncate(w))
  {
  }

  lemma TruncatePromoted(x: Byte)
    ensures Truncate(Promote(x)) == x
  {
  }

  lemma BitsOfFactors(v: bv16)
    ensures TimesBit(0x0e, 0, v) == 0 && TimesBit(0x0e, 1, v) == v && TimesBit(0x0e, 2, v) == v && TimesBit(0x0e, 3, v) == v
    ensures TimesBit(0x0b, 0, v) == v && TimesBit(0x0b, 1, v) == v && TimesBit(0x0b, 2, v) == 0 && TimesBit(0x0b, 3, v) == v
    ensures TimesBit(0x0d, 0, v) == v && TimesBit(0x0d, 1, v) == 0 && TimesBit(0x0d, 2, v) == v && TimesBit(0x0d, 3, v) == v
    ensures TimesBit(0x09, 0, v) == v && TimesBit(0x09, 1, v) == 0 && TimesBit(0x09, 2, v) == 0 && TimesBit(0x09, 3, v) == v
    ensures TimesBit(0x0e, 4, v) == 0 && TimesBit(0x0b, 4, v) == 0 && TimesBit(0x0d, 4, v) == 0 && TimesBit(0x09, 4, v) == 0
  {
  }

  lemma XorNone(v: bv16)
    ensures XorTwo(v, 0) == v && XorTwo(0, v) == v
  {
  }

  lemma ChosenFactors(x: bv16, x1: bv16, x2: bv16, x3: bv16, x4: bv16)
    ensures Chosen(0x0e, x, x1, x2, x3, x4) == XorTwo(XorTwo(x1, x2), x3)
    ensures Chosen(0x0b, x, x1, x2, x3, x4) == XorTwo(XorTwo(x, x1), x3)
    ensures Chosen(0x0d, x, x1, x2, x3, x4) == XorTwo(XorTwo(x, x2), x3)
    ensures Chosen(0x09, x, x1, x2, x3, x4) == XorTwo(x, x3)
  {
    hide XorTwo, TimesBit;
    forall v ensures XorTwo(v, 0) == v && XorTwo(0, v) == v { XorNone(v); }
    BitsOfFactors(x);
    BitsOfFactors(x1);
    BitsOfFactors(x2);
    BitsOfFactors(x3);
    BitsOfFactors(x4);
  }

  lemma SumsOfThree(a: Byte, b: Byte, c: Byte)
    ensures Xor8(Xor8(a, b), c) == Xor8(c, Xor8(b, a)) == Xor8(Xor8(c, a), b)
  {
  }

  /** Products on promoted operands, truncated, are those on bytes. */
  lemma MultiplyTruncated(x: Byte)
    ensures Truncate(Multiply(Promote(x), 0x0e)) == By14(x) && Truncate(Multiply(Promote(x), 0x0b)) == By11(x)
    ensures Truncate(Multiply(Promote(x), 0x0d)) == By13(x) && Truncate(Multiply(Promote(x), 0x09)) == By9(x)
  {
    hide Truncate, Promote, Chosen, XtWide, XorTwo, Xor8, Xt;
    var w := Promote(x);
    var w1 := XtWide(w);
    var w2 := XtWide(w1);
    var w3 := XtWide(w2);
    var (t, t1, t2, t3) := (Truncate(w), Truncate(w1), Truncate(w2), Truncate(w3));
    ChosenFactors(w, w1, w2, w3, XtWide(w3));
    TruncatePromoted(x);
    TruncateXt(w);
    TruncateXt(w1);
    TruncateXt(w2);
    TruncateXor(w1, w2);
    TruncateXor(XorTwo(w1, w2), w3);
    TruncateXor(w, w1);
    TruncateXor(XorTwo(w, w1), w3);
    TruncateXor(w, w2);
    TruncateXor(XorTwo(w, w2), w3);
    TruncateXor(w, w3);
    SumsOfThree(t1, t2, t3);
    SumsOfThree(t, t1, t3);
    SumsOfThree(t, t2, t3);
    XorSwaps(t, t3);
  }

  function XorFour(a: bv16, b: bv16, c: bv16, d: bv16): bv16 { a ^ b ^ c ^ d }

  lemma TruncateSum(a: bv16, b: bv16, c: bv16, d: bv16)
    ensures Truncate(XorFour(a, b, c, d)) == Sum(Truncate(a), Truncate(b), Truncate(c), Truncate(d))
  {
  }

  /** One byte of the mixed row, from the bytes multiplied by 14, 11, 13 and 9. */
  function MixedRowByte(e: Byte, f: Byte, g: Byte, h: Byte): Byte {
    Truncate(XorFour(Multiply(Promote(e), 0x0e), Multiply(Promote(f), 0x0b),
                     Multiply(Promote(g), 0x0d), Multiply(Promote(h), 0x09)))
  }

  lemma MixedRowByteIsInvMix(e: Byte, f: Byte, g: Byte, h: Byte)
    ensures MixedRowByte(e, f, g, h) == InvMix(e, f, g, h)
  {
    hide Truncate, Multiply, XorFour, Sum, By9, By11, By13, By14;
    TruncateSum(Multiply(Promote(e), 0x0e), Multiply(Promote(f), 0x0b), Multiply(Promote(g), 0x0d), Multiply(Promote(h), 0x09));
    MultiplyTruncated(e);
    MultiplyTruncated(f);
    MultiplyTruncated(g);
    MultiplyTruncated(h);
  }

  /** The four rows of a 4x4 array are the columns of the state. */
  function Flat(v: array2<Byte>): Block
    requires v.Length0 == 4 && v.Length1 == 4
    reads v
  {
    [v[0, 0], v[0, 1], v[0, 2], v[0, 3], v[1, 0], v[1, 1], v[1, 2], v[1, 3],
     v[2, 0], v[2, 1], v[2, 2], v[2, 3], v[3, 0], v[3, 1], v[3, 2], v[3, 3]]
  }

  lemma FlatAt(v: array2<Byte>, i: nat)
    requires v.Length0 == 4 && v.Length1 == 4 && i < 16
    ensures Flat(v)[i] == v[i / 4, i % 4]
  {
  }

  /** Substitutes and scatters the bytes to where InvShiftRows puts them. */
  method Scatter(a: Block, v: array2<Byte>)
    requires v.Length0 == 4 && v.Length1 == 4
    modifies v
    ensures Flat(v) == InvSubBytes(InvShiftRows(a))
  {
    hide Rsbox;
    for i := 0 to 16
      invariant forall j :: 0 <= j < i ==> v[Row(j), j % 4] == Rsbox(a[j])
    {
      RowsDiffer(i);
      v[Row(i), i % 4] := Rsbox(a[i]);
    }
    forall i | 0 <= i < 16 ensures Flat(v)[i] == Rsbox(a[(i + 12 * (i % 4)) % 16]) {
      RowOfSource(i);
      FlatAt(v, i);
    }
  }

  function Row(i: nat): (r: nat)
    ensures r < 4
  {
    (i / 4 + i % 4) % 4
  }

  lemma RowsDiffer(i: nat)
    requires i < 16
    ensures forall j :: 0 <= j < i ==> Row(j) != Row(i) || j % 4 != i % 4
  {
  }

  lemma RowOfColumn(c: nat, r: nat)
    requires c < 4 && r < 4
    ensures var j := 4 * ((c + 3 * r) % 4) + r; j < 16 && Row(j) == c && j % 4 == r
  {
  }

  lemma SourceColumn(c: nat, r: nat)
    requires c < 4 && r < 4
    ensures (4 * c + r + 12 * r) % 16 == 4 * ((c + 3 * r) % 4) + r
  {
    if r == 0 {} else if r == 1 {} else if r == 2 {} else {}
  }

  lemma RowOfSource(i: nat)
    requires i < 16
    ensures var j := (i + 12 * (i % 4)) % 16; Row(j) == i / 4 && j % 4 == i % 4
  {
    RowOfColumn(i / 4, i % 4);
    SourceColumn(i / 4, i % 4);
  }

  /** Row j of the array is column j of the state. */
  predicate RowIs(v: array2<Byte>, j: nat, s: Block)
    requires j < 4 && v.Length0 == 4 && v.Length1 == 4
    reads v
  {
    v[j, 0] == s[4 * j] && v[j, 1] == s[4 * j + 1] && v[j, 2] == s[4 * j + 2] && v[j, 3] == s[4 * j + 3]
  }

  lemma RowsMakeFlat(v: array2<Byte>, s: Block)
    requires v.Length0 == 4 && v.Length1 == 4
    ensures Flat(v) == s <==> RowIs(v, 0, s) && RowIs(v, 1, s) && RowIs(v, 2, s) && RowIs(v, 3, s)
  {
  }

  lemma InvMixedColumn(s: Block, k: nat)
    requires k < 4
    ensures var (m, a, b, c, d) := (InvMixColumns(s), s[4 * k], s[4 * k + 1], s[4 * k + 2], s[4 * k + 3]);
            m[4 * k] == InvMix(a, b, c, d) && m[4 * k + 1] == InvMix(b, c, d, a)
            && m[4 * k + 2] == InvMix(c, d, a, b) && m[4 * k + 3] == InvMix(d, a, b, c)
  {
    hide InvMix, Down;
    DownsInColumn(k);
  }

  method MixRow(v: array2<Byte>, i: nat)
    requires i < 4 && v.Length0 == 4 && v.Length1 == 4
    modifies v
    ensures var (e, f, g, h) := (old(v[i, 0]), old(v[i, 1]), old(v[i, 2]), old(v[i, 3]));
            v[i, 0] == InvMix(e, f, g, h) && v[i, 1] == InvMix(f, g, h, e)
            && v[i, 2] == InvMix(g, h, e, f) && v[i, 3] == InvMix(h, e, f, g)
    ensures forall j, k :: 0 <= j < 4 && 0 <= k < 4 && j != i ==> v[j, k] == old(v[j, k])
  {
    hide MixedRowByte, InvMix;
    var e, f, g, h := v[i, 0], v[i, 1], v[i, 2], v[i, 3];
    v[i, 0] := MixedRowByte(e, f, g, h);
    v[i, 1] := MixedRowByte(f, g, h, e);
    v[i, 2] := MixedRowByte(g, h, e, f);
    v[i, 3] := MixedRowByte(h, e, f, g);
    MixedRowByteIsInvMix(e, f, g, h);
    MixedRowByteIsInvMix(f, g, h, e);
    MixedRowByteIsInvMix(g, h, e, f);
    MixedRowByteIsInvMix(h, e, f, g);
  }

  /** The first i rows are columns of the mixed state, the others still of the state as it was. */
  ghost predicate MixedUpTo(v: array2<Byte>, i: nat, was: Block)
    requires v.Length0 == 4 && v.Length1 == 4
    reads v
  {
    && (forall j :: 0 <= j < i && j < 4 ==> RowIs(v, j, InvMixColumns(was)))
    && (forall j :: i <= j < 4 ==> RowIs(v, j, was))
  }

  method MixNextRow(v: array2<Byte>, i: nat, ghost was: Block)
    requires i < 4 && v.Length0 == 4 && v.Length1 == 4 && MixedUpTo(v, i, was)
    modifies v
    ensures MixedUpTo(v, i + 1, was)
  {
    hide InvMix, InvMixColumns;
    InvMixedColumn(was, i);
    assert RowIs(v, i, was);
    label before:
    MixRow(v, i);
    assert RowIs(v, i, InvMixColumns(was));
    forall j | i < j < 4 ensures RowIs(v, j, was) {
      assert old@before(RowIs(v, j, was));
    }
    forall j | 0 <= j < i ensures RowIs(v, j, InvMixColumns(was)) {
      assert old@before(RowIs(v, j, InvMixColumns(was)));
    }
  }

  /** InvMixColumns in place, a row at a time. */
  method InvMixRows(v: array2<Byte>)
    requires v.Length0 == 4 && v.Length1 == 4
    modifies v
    ensures Flat(v) == InvMixColumns(old(Flat(v)))
  {
    hide InvMixColumns, Flat, RowIs;
    ghost var was := Flat(v);
    RowsMakeFlat(v, was);
    for i := 0 to 4
      invariant MixedUpTo(v, i, was)
    {
      MixNextRow(v, i, was);
    }
    RowsMakeFlat(v, InvMixColumns(was));
  }

  method AesDecLoops(a: Block, roundKey: Block) returns (r: Block)
    ensures r == DecRound(a, roundKey)
  {
    hide InvMixColumns, InvSubBytes, InvShiftRows, AddRoundKey, Flat;
    var v := new Byte[4, 4];
    Scatter(a, v);
    InvMixRows(v);
    r := AddRoundKey(Flat(v), roundKey);
  }

  method AesDecLastLoop(a: Block, roundKey: Block) returns (r: Block)
    ensures r == DecLastRound(a, roundKey)
  {
    hide InvSubBytes, InvShiftRows, AddRoundKey, Flat;
    var v := new Byte[4, 4];
    Scatter(a, v);
    r := AddRoundKey(Flat(v), roundKey);
  }

  method AesImcLoop(a: Block) returns (r: Block)
    ensures r == InvMixColumns(a)
  {
    hide InvMixColumns;
    var v := new Byte[4, 4]((j, k) requires 0 <= j < 4 && 0 <= k < 4 => a[4 * j + k]);
    assert Flat(v) == a;
    InvMixRows(v);
    r := Flat(v);
  }
}
