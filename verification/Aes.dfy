/** The AES round transformations of FIPS 197 on sixteen-byte blocks, and why decrypting undoes encrypting. */
module Aes {
  import opened AesTables
  import opened Words

  type Block = s: seq<Byte> | |s| == 16 witness seq(16, _ => 0)

  /** The byte n places further down in the same column. */
  function Down(i: nat, n: nat): (j: nat)
    requires i < 16 && n < 4
    ensures j < 16
  {
    if i % 4 + n < 4 then i + n else i + n - 4
  }

  function SubBytes(s: Block): Block { seq(16, i requires 0 <= i < 16 => Sbox(s[i])) }
  function InvSubBytes(s: Block): Block { seq(16, i requires 0 <= i < 16 => Rsbox(s[i])) }

  /** Row r of the state moves r columns to the left. */
  function ShiftRows(s: Block): Block { seq(16, i requires 0 <= i < 16 => s[(i + 4 * (i % 4)) % 16]) }
  function InvShiftRows(s: Block): Block { seq(16, i requires 0 <= i < 16 => s[(i + 12 * (i % 4)) % 16]) }

  function AddRoundKey(s: Block, k: Block): Block { seq(16, i requires 0 <= i < 16 => Xor8(s[i], k[i])) }

  function Xt2(x: Byte): Byte { Xt(Xt(x)) }
  function Xt3(x: Byte): Byte { Xt(Xt2(x)) }

  function By3(x: Byte): Byte { Xor8(Xt(x), x) }
  function By9(x: Byte): Byte { Xor8(Xt3(x), x) }
  function By11(x: Byte): Byte { Xor8(By9(x), Xt(x)) }
  function By13(x: Byte): Byte { Xor8(By9(x), Xt2(x)) }
  function By14(x: Byte): Byte { Xor8(Xt3(x), Xor8(Xt2(x), Xt(x))) }

  function Sum(a: Byte, b: Byte, c: Byte, d: Byte): Byte { a ^ b ^ c ^ d }

  /** One byte of a mixed column, from the column read downwards from that byte. */
  function Mix(a: Byte, b: Byte, c: Byte, d: Byte): Byte { Sum(Xt(a), By3(b), c, d) }
  function InvMix(a: Byte, b: Byte, c: Byte, d: Byte): Byte { Sum(By14(a), By11(b), By13(c), By9(d)) }

  function MixColumns(s: Block): Block {
    seq(16, i requires 0 <= i < 16 => Mix(s[i], s[Down(i, 1)], s[Down(i, 2)], s[Down(i, 3)]))
  }

  function InvMixColumns(s: Block): Block {
    seq(16, i requires 0 <= i < 16 => InvMix(s[i], s[Down(i, 1)], s[Down(i, 2)], s[Down(i, 3)]))
  }

  // ---- The inverses ----

  lemma ShiftRowsUndone(s: Block)
    ensures InvShiftRows(ShiftRows(s)) == s
  {
    forall i | 0 <= i < 16 ensures InvShiftRows(ShiftRows(s))[i] == s[i] {
      ShiftsCancel(i);
    }
  }

  lemma ShiftsCancel(i: nat)
    requires i < 16
    ensures var j := (i + 12 * (i % 4)) % 16; j % 4 == i % 4 && (j + 4 * (j % 4)) % 16 == i
  {
    var r := i % 4;
    if r == 0 { SameRow(i, 0); } else if r == 1 { SameRow(i, 12); } else if r == 2 { SameRow(i, 24); } else { SameRow(i, 36); }
  }

  /** Moving by whole columns stays in the row. */
  lemma SameRow(i: nat, n: nat)
    requires n % 4 == 0
    ensures (i + n) % 16 % 4 == i % 4
  {
  }

  lemma SubBytesUndone(s: Block)
    ensures InvSubBytes(SubBytes(s)) == s
  {
    hide Sbox, Rsbox;
    forall i | 0 <= i < 16 ensures InvSubBytes(SubBytes(s))[i] == s[i] {
      TablesInvert(s[i]);
    }
  }

  /** Substitution does not care where a byte stands. */
  lemma SubBytesCommutes(s: Block)
    ensures InvShiftRows(SubBytes(s)) == SubBytes(InvShiftRows(s))
  {
    hide Sbox;
  }

  /** The coefficients are those of section 5.1.3 and 5.3.3 of FIPS 197. */
  lemma CoefficientsAreTimes(x: Byte)
    ensures Xt(x) == Times(x, 2) && By3(x) == Times(x, 3)
    ensures By9(x) == Times(x, 9) && By11(x) == Times(x, 11) && By13(x) == Times(x, 13) && By14(x) == Times(x, 14)
  {
  }

  // ---- MixColumns is linear and InvMixColumns inverts it ----

  lemma XtLinear(x: Byte, y: Byte)
    ensures Xt(Xor8(x, y)) == Xor8(Xt(x), Xt(y))
  {
  }

  lemma XorAssociates(a: Byte, b: Byte, c: Byte)
    ensures Xor8(Xor8(a, b), c) == Xor8(a, Xor8(b, c))
  {
  }

  lemma XorSwaps(a: Byte, b: Byte)
    ensures Xor8(a, b) == Xor8(b, a)
  {
  }

  lemma XorExchange(a: Byte, b: Byte, c: Byte, d: Byte)
    ensures Xor8(Xor8(a, b), Xor8(c, d)) == Xor8(Xor8(a, c), Xor8(b, d))
  {
    hide Xor8;
    XorAssociates(a, b, Xor8(c, d));
    XorAssociates(b, c, d);
    XorSwaps(b, c);
    XorAssociates(c, b, d);
    XorAssociates(a, c, Xor8(b, d));
  }

  lemma CoefficientsLinear(x: Byte, y: Byte)
    ensures By3(Xor8(x, y)) == Xor8(By3(x), By3(y)) && By9(Xor8(x, y)) == Xor8(By9(x), By9(y))
    ensures By11(Xor8(x, y)) == Xor8(By11(x), By11(y)) && By13(Xor8(x, y)) == Xor8(By13(x), By13(y))
    ensures By14(Xor8(x, y)) == Xor8(By14(x), By14(y))
  {
    hide Xt, Xor8;
    XtLinear(x, y);
    XtLinear(Xt(x), Xt(y));
    XtLinear(Xt2(x), Xt2(y));
    XorExchange(Xt(x), Xt(y), x, y);
    XorExchange(Xt3(x), Xt3(y), x, y);
    XorExchange(By9(x), By9(y), Xt(x), Xt(y));
    XorExchange(By9(x), By9(y), Xt2(x), Xt2(y));
    XorExchange(Xt2(x), Xt2(y), Xt(x), Xt(y));
    XorExchange(Xt3(x), Xt3(y), Xor8(Xt2(x), Xt(x)), Xor8(Xt2(y), Xt(y)));
  }

  lemma SumAsXors(a: Byte, b: Byte, c: Byte, d: Byte)
    ensures Sum(a, b, c, d) == Xor8(Xor8(Xor8(a, b), c), d)
  {
  }

  lemma SumOfXors(a: Byte, b: Byte, c: Byte, d: Byte, e: Byte, f: Byte, g: Byte, h: Byte)
    ensures Sum(Xor8(a, e), Xor8(b, f), Xor8(c, g), Xor8(d, h)) == Xor8(Sum(a, b, c, d), Sum(e, f, g, h))
  {
    hide Sum, Xor8;
    SumAsXors(Xor8(a, e), Xor8(b, f), Xor8(c, g), Xor8(d, h));
    XorExchange(a, e, b, f);
    XorExchange(Xor8(a, b), Xor8(e, f), c, g);
    XorExchange(Xor8(Xor8(a, b), c), Xor8(Xor8(e, f), g), d, h);
    SumAsXors(a, b, c, d);
    SumAsXors(e, f, g, h);
  }

  lemma InvMixLinear(a: Byte, b: Byte, c: Byte, d: Byte, e: Byte, f: Byte, g: Byte, h: Byte)
    ensures InvMix(Xor8(a, e), Xor8(b, f), Xor8(c, g), Xor8(d, h)) == Xor8(InvMix(a, b, c, d), InvMix(e, f, g, h))
  {
    hide Xor8, Sum, By9, By11, By13, By14;
    CoefficientsLinear(a, e);
    CoefficientsLinear(b, f);
    CoefficientsLinear(c, g);
    CoefficientsLinear(d, h);
    SumOfXors(By14(a), By11(b), By13(c), By9(d), By14(e), By11(f), By13(g), By9(h));
  }

  /** InvMixColumns of a sum is the sum of the InvMixColumns, which is what lets the round key go through it. */
  lemma InvMixColumnsLinear(s: Block, k: Block)
    ensures InvMixColumns(AddRoundKey(s, k)) == AddRoundKey(InvMixColumns(s), InvMixColumns(k))
  {
    hide Xor8, InvMix, Down;
    forall i | 0 <= i < 16
      ensures InvMixColumns(AddRoundKey(s, k))[i] == AddRoundKey(InvMixColumns(s), InvMixColumns(k))[i]
    {
      InvMixLinear(s[i], s[Down(i, 1)], s[Down(i, 2)], s[Down(i, 3)], k[i], k[Down(i, 1)], k[Down(i, 2)], k[Down(i, 3)]);
    }
  }

  /** What one byte of a column contributes to InvMix after Mix, row by row of the product of the two matrices. */
  lemma MatrixProduct(x: Byte)
    ensures Sum(By14(Xt(x)), By11(x), By13(x), By9(By3(x))) == x
    ensures Sum(By14(By3(x)), By11(Xt(x)), By13(x), By9(x)) == 0
    ensures Sum(By14(x), By11(By3(x)), By13(Xt(x)), By9(x)) == 0
    ensures Sum(By14(x), By11(x), By13(By3(x)), By9(Xt(x))) == 0
  {
  }

  /** Each coefficient goes through a sum of four. */
  lemma SumsLinear(a: Byte, b: Byte, c: Byte, d: Byte)
    ensures By14(Sum(a, b, c, d)) == Sum(By14(a), By14(b), By14(c), By14(d))
    ensures By11(Sum(a, b, c, d)) == Sum(By11(a), By11(b), By11(c), By11(d))
    ensures By13(Sum(a, b, c, d)) == Sum(By13(a), By13(b), By13(c), By13(d))
    ensures By9(Sum(a, b, c, d)) == Sum(By9(a), By9(b), By9(c), By9(d))
  {
    hide Xor8, Sum, By9, By11, By13, By14;
    SumAsXors(a, b, c, d);
    CoefficientsLinear(Xor8(Xor8(a, b), c), d);
    CoefficientsLinear(Xor8(a, b), c);
    CoefficientsLinear(a, b);
    SumAsXors(By14(a), By14(b), By14(c), By14(d));
    SumAsXors(By11(a), By11(b), By11(c), By11(d));
    SumAsXors(By13(a), By13(b), By13(c), By13(d));
    SumAsXors(By9(a), By9(b), By9(c), By9(d));
  }

  /** A square of sixteen terms, added up by rows or by columns. */
  lemma SumBothWays(a: Byte, b: Byte, c: Byte, d: Byte, e: Byte, f: Byte, g: Byte, h: Byte,
                    i: Byte, j: Byte, k: Byte, l: Byte, m: Byte, n: Byte, o: Byte, p: Byte)
    ensures Sum(Sum(a, b, c, d), Sum(e, f, g, h), Sum(i, j, k, l), Sum(m, n, o, p))
            == Sum(Sum(a, e, i, m), Sum(b, f, j, n), Sum(c, g, k, o), Sum(d, h, l, p))
  {
    hide Sum, Xor8;
    SumAsXors(Sum(a, b, c, d), Sum(e, f, g, h), Sum(i, j, k, l), Sum(m, n, o, p));
    SumOfXors(a, b, c, d, e, f, g, h);
    SumOfXors(Xor8(a, e), Xor8(b, f), Xor8(c, g), Xor8(d, h), i, j, k, l);
    SumOfXors(Xor8(Xor8(a, e), i), Xor8(Xor8(b, f), j), Xor8(Xor8(c, g), k), Xor8(Xor8(d, h), l), m, n, o, p);
    SumAsXors(a, e, i, m);
    SumAsXors(b, f, j, n);
    SumAsXors(c, g, k, o);
    SumAsXors(d, h, l, p);
  }

  lemma SumZeros(x: Byte)
    ensures Sum(x, 0, 0, 0) == x
  {
  }

  lemma MixUndone(a: Byte, b: Byte, c: Byte, d: Byte)
    ensures InvMix(Mix(a, b, c, d), Mix(b, c, d, a), Mix(c, d, a, b), Mix(d, a, b, c)) == a
  {
    hide Sum, Xt, By3, By9, By11, By13, By14;
    SumsLinear(Xt(a), By3(b), c, d);
    SumsLinear(Xt(b), By3(c), d, a);
    SumsLinear(Xt(c), By3(d), a, b);
    SumsLinear(Xt(d), By3(a), b, c);
    MixTermsCancel(a, b, c, d);
  }

  lemma RotatedOnce(a: Byte, b: Byte, c: Byte, d: Byte)
    ensures Sum(a, b, c, d) == Sum(b, c, d, a)
  {
    hide Sum, Xor8;
    SumAsXors(a, b, c, d);
    SumAsXors(b, c, d, a);
    XorAssociates(a, b, c);
    XorAssociates(a, Xor8(b, c), d);
    XorSwaps(a, Xor8(Xor8(b, c), d));
  }

  lemma Rotated(a: Byte, b: Byte, c: Byte, d: Byte)
    ensures Sum(a, b, c, d) == Sum(b, c, d, a) == Sum(c, d, a, b) == Sum(d, a, b, c)
  {
    hide Sum;
    RotatedOnce(a, b, c, d);
    RotatedOnce(b, c, d, a);
    RotatedOnce(c, d, a, b);
  }

  lemma MixTermsCancel(a: Byte, b: Byte, c: Byte, d: Byte)
    ensures Sum(Sum(By14(Xt(a)), By14(By3(b)), By14(c), By14(d)), Sum(By11(Xt(b)), By11(By3(c)), By11(d), By11(a)),
                Sum(By13(Xt(c)), By13(By3(d)), By13(a), By13(b)), Sum(By9(Xt(d)), By9(By3(a)), By9(b), By9(c))) == a
  {
    hide Sum, Xt, By3, By9, By11, By13, By14;
    Rotated(By11(Xt(b)), By11(By3(c)), By11(d), By11(a));
    Rotated(By13(Xt(c)), By13(By3(d)), By13(a), By13(b));
    Rotated(By9(Xt(d)), By9(By3(a)), By9(b), By9(c));
    SumBothWays(By14(Xt(a)), By14(By3(b)), By14(c), By14(d), By11(a), By11(Xt(b)), By11(By3(c)), By11(d),
                By13(a), By13(b), By13(Xt(c)), By13(By3(d)), By9(By3(a)), By9(b), By9(c), By9(Xt(d)));
    MatrixProduct(a);
    MatrixProduct(b);
    MatrixProduct(c);
    MatrixProduct(d);
    SumZeros(a);
  }

  lemma DownTwice(i: nat)
    requires i < 16
    ensures Down(Down(i, 1), 1) == Down(i, 2) && Down(Down(i, 1), 2) == Down(i, 3) && Down(Down(i, 1), 3) == i
    ensures Down(Down(i, 2), 1) == Down(i, 3) && Down(Down(i, 2), 2) == i && Down(Down(i, 2), 3) == Down(i, 1)
    ensures Down(Down(i, 3), 1) == i && Down(Down(i, 3), 2) == Down(i, 1) && Down(Down(i, 3), 3) == Down(i, 2)
  {
  }

  lemma MixColumnsUndone(s: Block)
    ensures InvMixColumns(MixColumns(s)) == s
  {
    hide Mix, InvMix, Down;
    forall i | 0 <= i < 16 ensures InvMixColumns(MixColumns(s))[i] == s[i] {
      DownTwice(i);
      MixUndone(s[i], s[Down(i, 1)], s[Down(i, 2)], s[Down(i, 3)]);
    }
  }

  // ---- The round intrinsics as transformations, and a whole cipher ----

  function EncRound(s: Block, k: Block): Block { AddRoundKey(MixColumns(SubBytes(ShiftRows(s))), k) }
  function EncLastRound(s: Block, k: Block): Block { AddRoundKey(SubBytes(ShiftRows(s)), k) }
  function DecRound(s: Block, k: Block): Block { AddRoundKey(InvMixColumns(InvSubBytes(InvShiftRows(s))), k) }
  function DecLastRound(s: Block, k: Block): Block { AddRoundKey(InvSubBytes(InvShiftRows(s)), k) }

  /** The whitened block after one round for each further key. */
  function EncRounds(s: Block, keys: seq<Block>): Block
    requires |keys| > 0
    decreases |keys|
  {
    if |keys| == 1 then AddRoundKey(s, keys[0])
    else EncRound(EncRounds(s, keys[..|keys| - 1]), keys[|keys| - 1])
  }

  /** Encryption: whitening and rounds with all keys but the last, which a round without mixing takes. */
  function Encrypt(s: Block, keys: seq<Block>, last: Block): Block
    requires |keys| > 0
  {
    EncLastRound(EncRounds(s, keys), last)
  }

  /** The decryption rounds of the equivalent inverse cipher: the same keys backwards, each but the outer two transformed. */
  function DecRounds(s: Block, keys: seq<Block>): Block
    requires |keys| > 0
    decreases |keys|
  {
    if |keys| == 1 then DecLastRound(s, keys[0])
    else DecRounds(DecRound(s, InvMixColumns(keys[|keys| - 1])), keys[..|keys| - 1])
  }

  function Decrypt(c: Block, keys: seq<Block>, last: Block): Block
    requires |keys| > 0
  {
    DecRounds(AddRoundKey(c, last), keys)
  }

  lemma AddRoundKeyUndone(s: Block, k: Block)
    ensures AddRoundKey(AddRoundKey(s, k), k) == s
  {
    forall i | 0 <= i < 16 ensures AddRoundKey(AddRoundKey(s, k), k)[i] == s[i] {
      assert Xor8(s[i] ^ k[i], k[i]) == s[i];
    }
  }

  lemma SubstitutionUndone(s: Block)
    ensures InvSubBytes(InvShiftRows(SubBytes(ShiftRows(s)))) == s
  {
    hide SubBytes, InvSubBytes, ShiftRows, InvShiftRows;
    SubBytesCommutes(ShiftRows(s));
    ShiftRowsUndone(s);
    SubBytesUndone(s);
  }

  /** The rounds run backwards: from the substituted state after any number of rounds back to the block. */
  lemma {:induction false} RoundsUndone(s: Block, keys: seq<Block>)
    requires |keys| > 0
    ensures DecRounds(SubBytes(ShiftRows(EncRounds(s, keys))), keys) == s
    decreases |keys|
  {
    hide SubBytes, InvSubBytes, ShiftRows, InvShiftRows, MixColumns, InvMixColumns, AddRoundKey;
    var state := EncRounds(s, keys);
    SubstitutionUndone(state);
    if |keys| == 1 {
      AddRoundKeyUndone(s, keys[0]);
    } else {
      var before := SubBytes(ShiftRows(EncRounds(s, keys[..|keys| - 1])));
      var key := keys[|keys| - 1];
      InvMixColumnsLinear(MixColumns(before), key);
      MixColumnsUndone(before);
      AddRoundKeyUndone(before, InvMixColumns(key));
      RoundsUndone(s, keys[..|keys| - 1]);
    }
  }

  /** The equivalent inverse cipher of section 5.3.5 of FIPS 197: for any keys, of any number, decryption
      with the transformed keys gives back the block. */
  lemma DecryptUndoesEncrypt(s: Block, keys: seq<Block>, last: Block)
    requires |keys| > 0
    ensures Decrypt(Encrypt(s, keys, last), keys, last) == s
  {
    hide SubBytes, ShiftRows, AddRoundKey, EncRounds, DecRounds;
    AddRoundKeyUndone(SubBytes(ShiftRows(EncRounds(s, keys))), last);
    RoundsUndone(s, keys);
  }
}
