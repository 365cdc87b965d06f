/** Products of machine words as the numbers they stand for: the portable 64x64->128 multiply is exact. */
module Products {
  import opened Mixing
  import opened Words

  type HalfNum = n: nat | n < TWO_32

  /** The number a word stands for. */
  function Num(x: bv64): nat { x as nat }
  function Num65(x: bv65): nat { x as nat }

  function LowHalf(x: bv64): bv64 { x & 0xFFFFFFFF }
  function HighHalf(x: bv64): bv64 { x >> 32 }

  /** The 64-bit product of two words' low halves. */
  function Mult32To64(lhs: bv64, rhs: bv64): bv64 {
    (lhs & 0xFFFFFFFF) * (rhs & 0xFFFFFFFF)
  }

  // ---- Addition and multiplication of words, as arithmetic ----

  function Add65(x: bv64, y: bv64): bv65 { (x as bv65) + (y as bv65) }
  function Plain(t: bv64): bv65 { t as bv65 }
  function Carried(t: bv64): bv65 { (t as bv65) | 0x1_0000_0000_0000_0000 }

  lemma NumBelow(x: bv64)
    ensures Num(x) < TWO_64
  {
  }

  lemma SumNum(x: bv64, y: bv64)
    ensures Num65((x as bv65) + (y as bv65)) == Num(x) + Num(y)
  {
  }

  lemma PlainNum(t: bv64)
    ensures Num65(t as bv65) == Num(t)
  {
  }

  lemma CarriedNum(t: bv64)
    ensures Num65((t as bv65) | 0x1_0000_0000_0000_0000) == Num(t) + TWO_64
  {
  }

  lemma WithOrWithoutCarry(x: bv64, y: bv64)
    ensures (x as bv65) + (y as bv65) == (x + y) as bv65 || (x as bv65) + (y as bv65) == ((x + y) as bv65) | 0x1_0000_0000_0000_0000
  {
  }

  lemma Split65(x: bv64, y: bv64)
    ensures Add65(x, y) == Plain(x + y) || Add65(x, y) == Carried(x + y)
  {
    WithOrWithoutCarry(x, y);
  }

  lemma SumDefinition(x: bv64, y: bv64)
    ensures Add64(x, y) == x + y
  {
  }

  lemma Nums65(x: bv64, y: bv64, t: bv64)
    ensures Num65(Add65(x, y)) == Num(x) + Num(y)
    ensures Num65(Plain(t)) == Num(t)
    ensures Num65(Carried(t)) == Num(t) + TWO_64
  {
    hide Num, Num65;
    SumNum(x, y);
    PlainNum(t);
    CarriedNum(t);
  }

  /** Addition wraps at 2^64, and only then. */
  lemma AddNum(x: bv64, y: bv64)
    ensures Num(Add64(x, y)) == if Num(x) + Num(y) < TWO_64 then Num(x) + Num(y) else Num(x) + Num(y) - TWO_64
  {
    hide Num, Num65, Add65, Plain, Carried, Add64;
    SumDefinition(x, y);
    Split65(x, y);
    Nums65(x, y, Add64(x, y));
    NumBelow(Add64(x, y));
  }

  lemma TimesPredecessor(x: bv64, y: bv64)
    ensures Mul64(x, y) == Add64(x * (y - 1), x)
  {
  }

  lemma MulAtPredecessor(x: bv64, y: bv64)
    ensures Mul64(x, y - 1) == x * (y - 1)
  {
  }

  lemma MulZero(x: bv64)
    ensures Mul64(x, 0) == 0
  {
  }

  lemma Predecessor(y: bv64)
    ensures y == Add64(Sub64(y, 1), 1) && Sub64(y, 1) == y - 1
  {
  }

  lemma PredecessorNum(y: bv64)
    requires y != 0
    ensures Num(Sub64(y, 1)) == Num(y) - 1
  {
    hide Add64, Sub64, Num;
    Predecessor(y);
    AddNum(Sub64(y, 1), 1);
    OneNum();
    NumBelow(Sub64(y, 1));
    if Num(Sub64(y, 1)) + 1 == TWO_64 { OnlyZero(y); }
  }

  lemma OneNum()
    ensures Num(1) == 1 && Num(0) == 0
  {
  }

  lemma OnlyZero(y: bv64)
    ensures Num(y) == 0 ==> y == 0
  {
    assert (Num(y) as bv64) == y;
  }

  lemma MulStep(x: bv64, y: bv64)
    ensures Mul64(x, y) == Add64(Mul64(x, Sub64(y, 1)), x)
  {
    hide Add64, Sub64, Mul64;
    Predecessor(y);
    TimesPredecessor(x, y);
    MulAtPredecessor(x, y);
  }

  lemma ModStep(x: nat, y: nat, before: nat, after: nat)
    requires y > 0 && x < TWO_64 && before == (x * (y - 1)) % TWO_64
    requires after == if before + x < TWO_64 then before + x else before + x - TWO_64
    ensures after == (x * y) % TWO_64
  {
    var q := (x * (y - 1)) / TWO_64;
    assert x * y == x * (y - 1) + x == q * TWO_64 + before + x;
  }

  /** The machine product is the product of the numbers modulo 2^64. */
  lemma {:induction false} MulNum(x: bv64, y: bv64)
    ensures Num(Mul64(x, y)) == (Num(x) * Num(y)) % TWO_64
    decreases Num(y)
  {
    hide Add64, Sub64, Mul64, Num;
    OneNum();
    if y == 0 {
      MulZero(x);
    } else {
      PredecessorNum(y);
      MulNum(x, Sub64(y, 1));
      MulStep(x, y);
      AddNum(Mul64(x, Sub64(y, 1)), x);
      NumBelow(x);
      ModStep(Num(x), Num(y), Num(Mul64(x, Sub64(y, 1))), Num(Mul64(x, y)));
    }
  }

  // ---- The two halves of a word ----

  function ShiftLeft32(x: bv64): bv64 { x << 32 }
  function Or64(x: bv64, y: bv64): bv64 { x | y }

  function Pair(hi: bv32, lo: bv32): bv64 { ((hi as bv64) << 32) | (lo as bv64) }
  function Widened(lo: bv32): bv64 { lo as bv64 }

  lemma PairNum(hi: bv32, lo: bv32)
    ensures Num(((hi as bv64) << 32) | (lo as bv64)) == hi as nat * TWO_32 + lo as nat
    ensures Num(lo as bv64) == lo as nat
  {
  }

  lemma Paired(x: bv64)
    ensures x == Pair((x >> 32) as bv32, (x & 0xFFFFFFFF) as bv32)
    ensures HighHalf(x) == Widened((x >> 32) as bv32) && LowHalf(x) == Widened((x & 0xFFFFFFFF) as bv32)
  {
  }

  lemma PairNums(hi: bv32, lo: bv32)
    ensures Num(Pair(hi, lo)) == Num(Widened(hi)) * TWO_32 + Num(Widened(lo))
    ensures Num(Widened(hi)) < TWO_32 && Num(Widened(lo)) < TWO_32
  {
    hide Num;
    PairNum(hi, lo);
    PairNum(lo, hi);
  }

  /** A word is its high half times 2^32 and its low half. */
  lemma HalvesNum(x: bv64)
    ensures Num(x) == Num(HighHalf(x)) * TWO_32 + Num(LowHalf(x))
    ensures Num(HighHalf(x)) < TWO_32 && Num(LowHalf(x)) < TWO_32
  {
    hide Num, Pair, HighHalf, LowHalf, Widened;
    Paired(x);
    PairNums((x >> 32) as bv32, (x & 0xFFFFFFFF) as bv32);
  }

  lemma OrHalves(upper: bv64, lower: bv64)
    ensures HighHalf(Or64(ShiftLeft32(upper), LowHalf(lower))) == LowHalf(upper)
    ensures LowHalf(Or64(ShiftLeft32(upper), LowHalf(lower))) == LowHalf(lower)
  {
  }

  /** (2^32 - 1)^2, the largest product of two halves. */
  const LARGEST_PRODUCT: nat := 0xFFFF_FFFE_0000_0001

  lemma MulBound(a: nat, b: nat, m: nat)
    requires a <= m && b <= m
    ensures a * b <= m * m
  {
    assert a * b <= a * m <= m * m;
  }

  lemma SmallMod(n: nat)
    requires n <= LARGEST_PRODUCT
    ensures n % TWO_64 == n
  {
  }

  lemma HalfSquare(a: HalfNum, b: HalfNum)
    ensures a * b <= LARGEST_PRODUCT && (a * b) % TWO_64 == a * b
  {
    hide TWO_64;
    MulBound(a, b, 0xFFFF_FFFF);
    SmallMod(a * b);
  }

  lemma MaskedProduct(x: bv64, y: bv64)
    ensures Mult32To64(x, y) == Mul64(x & 0xFFFFFFFF, y & 0xFFFFFFFF)
  {
  }

  lemma HalvesProduct(x: bv64, y: bv64)
    ensures Mult32To64(x, y) == Mul64(LowHalf(x), LowHalf(y))
  {
    hide Mult32To64, Mul64;
    MaskedProduct(x, y);
  }

  lemma Mult32Num(x: bv64, y: bv64)
    ensures Num(Mult32To64(x, y)) == Num(LowHalf(x)) * Num(LowHalf(y)) <= LARGEST_PRODUCT
  {
    hide Num, LowHalf, Mul64, Mult32To64, TWO_64;
    HalvesProduct(x, y);
    HalvesNum(x);
    HalvesNum(y);
    MulNum(LowHalf(x), LowHalf(y));
    HalfSquare(Num(LowHalf(x)), Num(LowHalf(y)));
  }

  lemma LowOfHalf(x: bv64)
    ensures LowHalf(LowHalf(x)) == LowHalf(x) && LowHalf(HighHalf(x)) == HighHalf(x)
  {
  }

  // ---- The portable 64x64->128 multiply ----

  datatype Hash128 = Hash128(low64: bv64, high64: bv64)

  function Cross(loLo: bv64, hiLo: bv64, loHi: bv64): bv64 {
    Add64(Add64(HighHalf(loLo), LowHalf(hiLo)), loHi)
  }

  function Upper(hiLo: bv64, cross: bv64, hiHi: bv64): bv64 {
    Add64(Add64(HighHalf(hiLo), HighHalf(cross)), hiHi)
  }

  /** Four 32-bit products, added up without carries. */
  function Mult64To128(lhs: bv64, rhs: bv64): Hash128 {
    var loLo := Mult32To64(lhs, rhs);
    var hiLo := Mult32To64(HighHalf(lhs), rhs);
    var loHi := Mult32To64(lhs, HighHalf(rhs));
    var hiHi := Mult32To64(HighHalf(lhs), HighHalf(rhs));
    var cross := Cross(loLo, hiLo, loHi);
    Hash128(Or64(ShiftLeft32(cross), LowHalf(loLo)), Upper(hiLo, cross, hiHi))
  }

  predicate IsProductOfHalves(x: bv64) {
    Num(x) <= LARGEST_PRODUCT
  }

  lemma CrossFits(loLo: bv64, hiLo: bv64, loHi: bv64)
    requires IsProductOfHalves(loHi)
    ensures Num(Cross(loLo, hiLo, loHi)) == Num(HighHalf(loLo)) + Num(LowHalf(hiLo)) + Num(loHi)
  {
    hide Num, HighHalf, LowHalf, Add64;
    HalvesNum(loLo);
    HalvesNum(hiLo);
    AddNum(HighHalf(loLo), LowHalf(hiLo));
    AddNum(Add64(HighHalf(loLo), LowHalf(hiLo)), loHi);
  }

  lemma UpperFits(hiLo: bv64, cross: bv64, hiHi: bv64)
    requires IsProductOfHalves(hiHi)
    ensures Num(Upper(hiLo, cross, hiHi)) == Num(HighHalf(hiLo)) + Num(HighHalf(cross)) + Num(hiHi)
  {
    hide Num, HighHalf, LowHalf, Add64;
    HalvesNum(hiLo);
    HalvesNum(cross);
    AddNum(HighHalf(hiLo), HighHalf(cross));
    AddNum(Add64(HighHalf(hiLo), HighHalf(cross)), hiHi);
  }

  /** Neither sum of the multiply overflows: each is the sum of its numbers. */
  lemma SumsFit(loLo: bv64, hiLo: bv64, loHi: bv64, hiHi: bv64)
    requires IsProductOfHalves(loHi) && IsProductOfHalves(hiHi)
    ensures Num(Cross(loLo, hiLo, loHi)) == Num(HighHalf(loLo)) + Num(LowHalf(hiLo)) + Num(loHi)
    ensures var cross := Cross(loLo, hiLo, loHi);
            Num(Upper(hiLo, cross, hiHi)) == Num(HighHalf(hiLo)) + Num(HighHalf(cross)) + Num(hiHi)
  {
    hide Num, HighHalf, LowHalf, Cross, Upper;
    CrossFits(loLo, hiLo, loHi);
    UpperFits(hiLo, Cross(loLo, hiLo, loHi), hiHi);
  }

  /** Grade-school multiplication, two digits by two. */
  lemma GradeSchool(x: nat, y: nat, a: nat, b: nat, c: nat, d: nat, bd: nat, ad: nat, bc: nat, ac: nat)
    requires x == a * TWO_32 + b && y == c * TWO_32 + d
    requires bd == b * d && ad == a * d && bc == b * c && ac == a * c
    ensures x * y == bd + TWO_32 * ad + TWO_32 * bc + TWO_64 * ac
  {
    assert x * y == a * TWO_32 * y + b * y;
    assert a * TWO_32 * y == TWO_32 * (a * y) == TWO_32 * (ac * TWO_32 + ad);
    assert b * y == bc * TWO_32 + bd;
  }

  /** Put together again, the two words are the four products at their places. */
  lemma Recombined(loLo: bv64, hiLo: bv64, loHi: bv64, hiHi: bv64)
    requires IsProductOfHalves(loLo) && IsProductOfHalves(hiLo) && IsProductOfHalves(loHi) && IsProductOfHalves(hiHi)
    ensures var cross := Cross(loLo, hiLo, loHi);
            Num(Or64(ShiftLeft32(cross), LowHalf(loLo))) + TWO_64 * Num(Upper(hiLo, cross, hiHi))
            == Num(loLo) + TWO_32 * Num(hiLo) + TWO_32 * Num(loHi) + TWO_64 * Num(hiHi)
  {
    hide Num, HighHalf, LowHalf, Cross, Upper, Or64, ShiftLeft32;
    SumsFit(loLo, hiLo, loHi, hiHi);
    var cross := Cross(loLo, hiLo, loHi);
    OrHalves(cross, loLo);
    HalvesNum(Or64(ShiftLeft32(cross), LowHalf(loLo)));
    HalvesNum(cross);
    HalvesNum(loLo);
    HalvesNum(hiLo);
  }

  /** The four partial products of the multiply are those of the numbers. */
  lemma PartialProducts(lhs: bv64, rhs: bv64)
    ensures Num(Mult32To64(lhs, rhs)) == Num(LowHalf(lhs)) * Num(LowHalf(rhs)) <= LARGEST_PRODUCT
    ensures Num(Mult32To64(HighHalf(lhs), rhs)) == Num(HighHalf(lhs)) * Num(LowHalf(rhs)) <= LARGEST_PRODUCT
    ensures Num(Mult32To64(lhs, HighHalf(rhs))) == Num(LowHalf(lhs)) * Num(HighHalf(rhs)) <= LARGEST_PRODUCT
    ensures Num(Mult32To64(HighHalf(lhs), HighHalf(rhs))) == Num(HighHalf(lhs)) * Num(HighHalf(rhs)) <= LARGEST_PRODUCT
  {
    hide Num, HighHalf, LowHalf, Mult32To64;
    LowOfHalf(lhs);
    LowOfHalf(rhs);
    Mult32Num(lhs, rhs);
    Mult32Num(HighHalf(lhs), rhs);
    Mult32Num(lhs, HighHalf(rhs));
    Mult32Num(HighHalf(lhs), HighHalf(rhs));
  }

  /** The two words are exactly the 128-bit product. */
  lemma MultIsExact(lhs: bv64, rhs: bv64)
    ensures var p := Mult64To128(lhs, rhs); Num(p.low64) + TWO_64 * Num(p.high64) == Num(lhs) * Num(rhs)
  {
    hide Num, HighHalf, LowHalf, Mult32To64, Cross, Upper, Or64, ShiftLeft32, TWO_32, TWO_64;
    var loLo, hiLo := Mult32To64(lhs, rhs), Mult32To64(HighHalf(lhs), rhs);
    var loHi, hiHi := Mult32To64(lhs, HighHalf(rhs)), Mult32To64(HighHalf(lhs), HighHalf(rhs));
    PartialProducts(lhs, rhs);
    Recombined(loLo, hiLo, loHi, hiHi);
    HalvesNum(lhs);
    HalvesNum(rhs);
    GradeSchool(Num(lhs), Num(rhs), Num(HighHalf(lhs)), Num(LowHalf(lhs)), Num(HighHalf(rhs)), Num(LowHalf(rhs)),
                Num(loLo), Num(hiLo), Num(loHi), Num(hiHi));
  }

  function Word(n: nat): bv64
    requires n < TWO_64
  {
    n as bv64
  }

  lemma WordOfNum(x: bv64)
    ensures x as nat < TWO_64 && Word(x as nat) == x && Num(x) == x as nat
  {
  }

  lemma SameNum(x: bv64, y: bv64)
    requires Num(x) == Num(y)
    ensures x == y
  {
    hide Num, Word;
    WordOfNum(x);
    WordOfNum(y);
  }

  /** Its low word is the ordinary wrapping product. */
  lemma LowWordIsProduct(lhs: bv64, rhs: bv64)
    ensures Mult64To128(lhs, rhs).low64 == Mul64(lhs, rhs)
  {
    hide Num, Mult64To128, Mul64;
    MultIsExact(lhs, rhs);
    MulNum(lhs, rhs);
    var p := Mult64To128(lhs, rhs);
    NumBelow(p.low64);
    assert Num(p.low64) == (Num(lhs) * Num(rhs)) % TWO_64;
    SameNum(p.low64, Mul64(lhs, rhs));
  }
}
