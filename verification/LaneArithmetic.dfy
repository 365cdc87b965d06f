/** What sums, products of vectors and dot products compute, as arithmetic on signed numbers. */
module LaneArithmetic {
  import opened Conversions
  import opened ExecuteMul
  import opened Handlers
  import opened Machine
  import opened Mixing
  import opened MulArithmetic
  import opened Products
  import opened SignedWords
  import opened Words

  // ---- Sums and products of 32-bit words ----

  lemma LowOfSum(x: bv32, y: bv32)
    ensures Low32((x as bv64) + (y as bv64)) == x + y
  {
  }

  lemma SumsWritten(x: bv32, y: bv32)
    ensures Add64(Widen(x), Widen(y)) == (x as bv64) + (y as bv64) && Add32(x, y) == x + y
  {
  }

  lemma AddIsLow(x: bv32, y: bv32)
    ensures Add32(x, y) == Low32(Add64(Widen(x), Widen(y)))
  {
    hide Add32, Add64, Low32;
    SumsWritten(x, y);
    LowOfSum(x, y);
  }

  lemma AddNum32(x: bv32, y: bv32)
    ensures Num32(Add32(x, y)) == (Num32(x) + Num32(y)) % TWO_32
  {
    hide Num, Num32, Add32, Low32, Widen, Add64;
    AddIsLow(x, y);
    NumOfWidened(x);
    NumOfWidened(y);
    AddNum(Widen(x), Widen(y));
    LowNum(Add64(Widen(x), Widen(y)));
  }

  lemma Congruent(a: int, c: int, m: int)
    requires m > 0 && a % m == c % m
    ensures a == c + (a / m - c / m) * m
  {
    assert (a / m - c / m) * m == a / m * m - c / m * m;
  }

  lemma ModSum(a: int, b: int, c: int, d: int, m: int)
    requires m > 0 && a % m == c % m && b % m == d % m
    ensures (a + b) % m == (c + d) % m
  {
    Congruent(a, c, m);
    Congruent(b, d, m);
    Regrouped(c, a / m - c / m, d, b / m - d / m, m);
    ModPlus(c + d, (a / m - c / m) + (b / m - d / m), m);
  }

  lemma Regrouped(c: int, k: int, d: int, l: int, m: int)
    ensures (c + k * m) + (d + l * m) == (c + d) + (k + l) * m
  {
  }

  lemma ModNegated(b: int, d: int, m: int)
    requires m > 0 && b % m == d % m
    ensures (-b) % m == (-d) % m
  {
    Congruent(b, d, m);
    var k := b / m - d / m;
    assert -b == -d + (-k) * m;
    ModPlus(-d, -k, m);
  }

  lemma AddIs(x: bv32, y: bv32, a: int, b: int)
    requires Num32(x) == a % TWO_32 && Num32(y) == b % TWO_32
    ensures Num32(Add32(x, y)) == (a + b) % TWO_32
  {
    hide Num32, Add32;
    AddNum32(x, y);
    ModTwice(a, TWO_32);
    ModTwice(b, TWO_32);
    ModSum(Num32(x), Num32(y), a, b, TWO_32);
  }

  lemma ModTwice(a: int, m: int)
    requires m > 0
    ensures (a % m) % m == a % m
  {
  }

  lemma SubIs(x: bv32, y: bv32, a: int, b: int)
    requires Num32(x) == a % TWO_32 && Num32(y) == b % TWO_32
    ensures Num32(Sub32(x, y)) == (a - b) % TWO_32
  {
    hide Num, Num32, Add32, Sub32;
    var z := Sub32(x, y);
    AddUndone32(x, y);
    AddNum32(z, y);
    NumOfWidened(z);
    ModTwice(a, TWO_32);
    ModTwice(b, TWO_32);
    ModNegated(Num32(y), b, TWO_32);
    ModSum(Num32(z) + Num32(y), -(Num32(y) as int), a, -b, TWO_32);
  }

  /** addm and subm: the first operand is the one that is subtracted from. */
  lemma SumComputes(h: bv64, x: bv32, y: bv32)
    requires IsSum(h)
    ensures Sum(h, x, y) == ToWord(if h == ADDM then Signed(x) + Signed(y) else Signed(x) - Signed(y))
  {
    hide Num32, Signed, ToWord, Add32, Sub32;
    SignedRange32(x);
    SignedRange32(y);
    AddIs(x, y, Signed(x), Signed(y));
    SubIs(x, y, Signed(x), Signed(y));
    ToWordIs(Sum(h, x, y), if h == ADDM then Signed(x) + Signed(y) else Signed(x) - Signed(y));
  }

  lemma LowOfProduct(x: bv32, y: bv32)
    ensures Low32((x as bv64) * (y as bv64)) == x * y
  {
  }

  lemma ProductsWritten(x: bv32, y: bv32)
    ensures Mul64(Widen(x), Widen(y)) == (x as bv64) * (y as bv64) && Mul32(x, y) == x * y
  {
  }

  lemma MulIsLow(x: bv32, y: bv32)
    ensures Mul32(x, y) == Low32(Mul64(Widen(x), Widen(y)))
  {
    hide Mul32, Mul64, Low32;
    ProductsWritten(x, y);
    LowOfProduct(x, y);
  }

  lemma ProductIs(x: bv32, y: bv32)
    ensures Num32(Mul32(x, y)) == (Signed(x) * Signed(y)) % TWO_32
  {
    hide Num, Num32, Signed, Low32, Widen, Mul64, Mul32;
    MulIsLow(x, y);
    MulNum(Widen(x), Widen(y));
    NumOfWidened(x);
    NumOfWidened(y);
    LowNum(Mul64(Widen(x), Widen(y)));
    LowOfModulus(Num32(x) * Num32(y));
    SignedRange32(x);
    SignedRange32(y);
    ModProduct(Signed(x), Signed(y), TWO_32);
  }

  // ---- Factors ----

  lemma NumberOf16()
    ensures Num(16) == 16
  {
  }

  /** The integer part of a 16.16 number. */
  function Integer(x: bv32): int { Signed(x) / 65536 }

  lemma QuotientFits(a: int, p: nat)
    requires p > 0 && Fits32(a)
    ensures Fits32(a / p)
  {
    if a >= 0 {
      QuotientSmall(a, p);
    } else {
      FloorOfNegative(-1 - a, p);
      QuotientSmall(-1 - a, p);
    }
  }

  lemma AsrIs(x: bv32, n: bv64)
    requires n < 64
    ensures Signed(Asr32(x, n)) == Signed(x) / Pow2(Num(n))
  {
    hide Num, Num32, Signed, Signed64, SignExtend, Low32, Asr64;
    var y := Asr64(SignExtend(x), n);
    ExtendedSigned(x);
    AsrSigned(SignExtend(x), n);
    LowSigned(y);
    SignedRange32(x);
    SignedRange32(Low32(y));
    QuotientFits(Signed(x), Pow2(Num(n)));
    CongruentSmall(Signed(Low32(y)), Signed64(y));
  }

  lemma UpperIs(x: bv32)
    ensures Signed(Upper16(x)) == Integer(x)
  {
    hide Num, Signed, Asr32;
    AsrIs(x, 16);
    NumberOf16();
    Powers();
  }

  /** The mipmap field of uvctl, bits 24 to 26. */
  function Mipmap(uvctl: bv32): int { Num32(uvctl) / 16777216 % 8 }

  lemma MipParts(x: bv32)
    ensures Right(Widen(x), 24) == Widen(x >> 24)
    ensures Add64(Left(Right(Widen(x >> 24), 3), 3), Widen(MipBits(x))) == Widen(x >> 24) && Right(Widen(MipBits(x)), 3) == 0
    ensures Widen(Add32(2, MipBits(x))) < 64
  {
  }

  lemma SmallAmounts()
    ensures Amount(3) == 3 && Amount(14) == 14 && Amount(24) == 24
  {
  }

  lemma MipNum(x: bv32)
    ensures Num32(MipBits(x)) == Mipmap(x)
  {
    hide Num, Num32, Left, Right, Widen, MipBits, Add64;
    MipParts(x);
    SmallAmounts();
    Powers();
    RightNum(Widen(x), 24);
    PartNum(Widen(x >> 24), Widen(MipBits(x)), 3);
    NumOfWidened(x);
    NumOfWidened(MipBits(x));
  }

  lemma NumberOf2()
    ensures Num32(2) == 2
  {
  }

  lemma TexelAmount(x: bv32)
    ensures Widen(Add32(2, MipBits(x))) < 64 && Num(Widen(Add32(2, MipBits(x)))) == 2 + Mipmap(x)
  {
    hide Num, Num32, Widen, MipBits, Add32;
    MipParts(x);
    MipNum(x);
    NumberOf2();
    AddNum32(2, MipBits(x));
    NumOfWidened(Add32(2, MipBits(x)));
  }

  /** The fraction of a texel: fourteen bits of ru or rv, at a place that the mipmap decides. */
  function TexelNumber(x: bv32, uvctl: bv32): int { Signed(x) / Pow2(2 + Mipmap(uvctl)) % 16384 }

  lemma Low14Parts(x: bv32)
    ensures Add64(Left(Right(Widen(x), 14), 14), Widen(Low14(x))) == Widen(x) && Right(Widen(Low14(x)), 14) == 0
  {
  }

  lemma Low14Num(x: bv32)
    ensures Num32(Low14(x)) == Signed(x) % 16384
  {
    hide Num, Num32, Signed, Left, Right, Widen, Low14, Add64;
    Low14Parts(x);
    SmallAmounts();
    Powers();
    PartNum(Widen(x), Widen(Low14(x)), 14);
    NumOfWidened(x);
    NumOfWidened(Low14(x));
    SignedRange32(x);
    ModOfMod(Signed(x));
  }

  lemma ModOfMod(z: int)
    ensures (z % TWO_32) % 16384 == z % 16384
  {
    ModPlus(z % TWO_32, z / TWO_32 * 262144, 16384);
  }

  lemma SmallSigned(x: bv32)
    requires Num32(x) < 0x80000000
    ensures Signed(x) == Num32(x)
  {
    hide Num32;
    SignNum32(x);
  }

  lemma TexelIs(x: bv32, uvctl: bv32)
    ensures Signed(Texel(x, uvctl)) == TexelNumber(x, uvctl)
  {
    hide Num, Num32, Signed, Asr32, Low14, Widen, Add32, MipBits, Mipmap;
    var n := Widen(Add32(2, MipBits(uvctl)));
    TexelAmount(uvctl);
    AsrIs(x, n);
    Low14Num(Asr32(x, n));
    SmallSigned(Texel(x, uvctl));
  }

  // ---- Lanes ----

  /** The number that a lane is multiplied by; r is the register of the factor. */
  function FactorNumber(factor: Factor, r: bv32, p: Registers, lane: bv32): int {
    match factor
    case ByScalar => Integer(Reg(p, r))
    case ByRu => TexelNumber(Reg(p, RU), Reg(p, UVCTL))
    case ByRv => TexelNumber(Reg(p, RV), Reg(p, UVCTL))
    case ByVector => Integer(Reg(p, At(r, lane)))
  }

  lemma FactorIs(factor: Factor, f: Fields, p: Registers, lane: bv32)
    ensures Signed(FactorOf(factor, f, p, lane)) == FactorNumber(factor, Low32(f.f2), p, lane)
  {
    hide Signed, Low32, Reg, At, Upper16, Texel, Integer, TexelNumber;
    match factor
    case ByScalar => UpperIs(Reg(p, Low32(f.f2)));
    case ByRu => TexelIs(Reg(p, RU), Reg(p, UVCTL));
    case ByRv => TexelIs(Reg(p, RV), Reg(p, UVCTL));
    case ByVector => UpperIs(Reg(p, At(Low32(f.f2), lane)));
  }

  /** The product in a lane, of integer parts. */
  function LaneNumber(factor: Factor, r: bv32, vector: bv32, p: Registers, lane: bv32): int {
    FactorNumber(factor, r, p, lane) * Integer(Reg(p, At(vector, lane)))
  }

  /** Shifts to the left are by 16, 8, 0 and 2 bits. */
  function Scale(m: nat): nat { if m == 0 then 65536 else if m == 1 then 256 else if m == 2 then 1 else 4 }

  lemma Scales(i: bv64)
    requires i <= 3
    ensures ShiftTable(i) == 16 || ShiftTable(i) == 8 || ShiftTable(i) == 0 || ShiftTable(i) == 2
    ensures i == 0 ==> ShiftTable(i) == 16
    ensures i == 1 ==> ShiftTable(i) == 8
    ensures i == 2 ==> ShiftTable(i) == 0
    ensures i == 3 ==> ShiftTable(i) == 2
    ensures i == 0 || i == 1 || i == 2 || i == 3
  {
  }

  lemma SmallNums()
    ensures Num(0) == 0 && Num(1) == 1 && Num(2) == 2 && Num(3) == 3
  {
  }

  lemma Up0(x: bv32)
    ensures ShiftedUp(x, 0) == Low32(Left(Widen(x), 0))
  {
  }

  lemma Up2(x: bv32)
    ensures ShiftedUp(x, 2) == Low32(Left(Widen(x), 2))
  {
  }

  lemma Up8(x: bv32)
    ensures ShiftedUp(x, 8) == Low32(Left(Widen(x), 8))
  {
  }

  lemma Up16(x: bv32)
    ensures ShiftedUp(x, 16) == Low32(Left(Widen(x), 16))
  {
  }

  lemma ScaleAmounts()
    ensures Pow2(Amount(0)) == 1 && Pow2(Amount(2)) == 4 && Pow2(Amount(8)) == 256 && Pow2(Amount(16)) == 65536
  {
    Powers();
    AmountsOfScale();
  }

  lemma AmountsOfScale()
    ensures Amount(0) == 0 && Amount(2) == 2 && Amount(8) == 8 && Amount(16) == 16
  {
  }

  lemma LeftLow(x: bv32, z: int, n: bv7)
    requires n <= 64 && Num32(x) == z % TWO_32
    ensures Num32(Low32(Left(Widen(x), n))) == (z * Pow2(Amount(n))) % TWO_32
  {
    hide Num, Num32, Low32, Left, Widen, Amount;
    var p := Pow2(Amount(n));
    LeftNum(Widen(x), n);
    NumOfWidened(x);
    LowNum(Left(Widen(x), n));
    LowOfModulus(Num32(x) * p);
    ModTimes(z, p, TWO_32);
  }

  /** A shift up by a place of the table multiplies. */
  lemma UpIs(x: bv32, z: int, i: bv64)
    requires i <= 3 && Num32(x) == z % TWO_32
    ensures Num32(ShiftedUp(x, ShiftTable(i))) == (z * Scale(Num(i))) % TWO_32
  {
    hide Num, Num32, Low32, Left, Widen, Amount, ShiftTable, ShiftedUp;
    Scales(i);
    SmallNums();
    ScaleAmounts();
    Up0(x);
    Up2(x);
    Up8(x);
    Up16(x);
    LeftLow(x, z, 0);
    LeftLow(x, z, 2);
    LeftLow(x, z, 8);
    LeftLow(x, z, 16);
  }

  function ScaleOf(s: Shape, f: Fields, p: Registers): int {
    Scale(if s.svshift then Num32(Reg(p, SVSHIFT)) % 4 else Num(f.f1))
  }

  lemma LowTwoParts(x: bv32)
    ensures Add64(Left(Right(Widen(x), 2), 2), Widen(LowTwo(x))) == Widen(x) && Right(Widen(LowTwo(x)), 2) == 0
    ensures Widen(LowTwo(x)) <= 3
  {
  }

  lemma LowTwoNum(x: bv32)
    ensures Num(Widen(LowTwo(x))) == Num32(x) % 4 && Widen(LowTwo(x)) <= 3
  {
    hide Num, Num32, Left, Right, Widen, LowTwo, Add64;
    LowTwoParts(x);
    ScaleAmounts();
    PartNum(Widen(x), Widen(LowTwo(x)), 2);
    NumOfWidened(x);
  }

  /** The multiplication that a lane shares with the dot product, before its shift. */
  lemma LaneIs(s: Shape, f: Fields, p: Registers, lane: bv32)
    ensures Num32(Mul32(FactorOf(s.factor, f, p, lane), Upper16(Reg(p, At(Low32(f.f3), lane)))))
            == LaneNumber(s.factor, Low32(f.f2), Low32(f.f3), p, lane) % TWO_32
  {
    hide Num32, Signed, Low32, Reg, At, Upper16, FactorOf, FactorNumber, Integer, Mul32;
    FactorIs(s.factor, f, p, lane);
    UpperIs(Reg(p, At(Low32(f.f3), lane)));
    ProductIs(FactorOf(s.factor, f, p, lane), Upper16(Reg(p, At(Low32(f.f3), lane))));
  }

  lemma ShiftIs(s: Shape, f: Fields, p: Registers, x: bv32, z: int)
    requires !s.svshift ==> f.f1 <= 3
    requires Num32(x) == z % TWO_32
    ensures ShiftedUp(x, ShiftOf(s, f, p)) == ToWord(z * ScaleOf(s, f, p))
  {
    hide Num, Num32, Reg, Widen, LowTwo, ShiftTable, ShiftedUp, Scale, ToWord;
    LowTwoNum(Reg(p, SVSHIFT));
    var i := if s.svshift then Widen(LowTwo(Reg(p, SVSHIFT))) else f.f1;
    UpIs(x, z, i);
    ToWordIs(ShiftedUp(x, ShiftTable(i)), z * Scale(Num(i)));
  }

  lemma LaneComputes(s: Shape, f: Fields, p: Registers, lane: bv32)
    requires !s.svshift ==> f.f1 <= 3
    ensures Lane(s, f, p, lane, ShiftOf(s, f, p)) == ToWord(LaneNumber(s.factor, Low32(f.f2), Low32(f.f3), p, lane) * ScaleOf(s, f, p))
  {
    hide Num32, Low32, Reg, At, Upper16, FactorOf, LaneNumber, Mul32, ShiftOf, ScaleOf, ShiftedUp, ToWord;
    LaneIs(s, f, p, lane);
    ShiftIs(s, f, p, Mul32(FactorOf(s.factor, f, p, lane), Upper16(Reg(p, At(Low32(f.f3), lane)))),
            LaneNumber(s.factor, Low32(f.f2), Low32(f.f3), p, lane));
  }

  /** The product of a vector, lane by lane, all from the operands as they were. */
  function Vectored(lanes: nat, factor: Factor, r: bv32, vector: bv32, scale: int, d: bv32, regs: Registers, p: Registers): Registers {
    var two := SetReg(SetReg(regs, At(d, 0), ToWord(LaneNumber(factor, r, vector, p, 0) * scale)),
                      At(d, 1), ToWord(LaneNumber(factor, r, vector, p, 1) * scale));
    var three := SetReg(two, At(d, 2), ToWord(LaneNumber(factor, r, vector, p, 2) * scale));
    if lanes == 3 then three else SetReg(three, At(d, 3), ToWord(LaneNumber(factor, r, vector, p, 3) * scale))
  }

  lemma VectorsCompute(s: Shape, f: Fields, regs: Registers, p: Registers)
    requires !s.svshift ==> f.f1 <= 3
    ensures Lanes(s, f, regs, p) == Vectored(s.lanes, s.factor, Low32(f.f2), Low32(f.f3), ScaleOf(s, f, p), Low32(f.f4), regs, p)
  {
    hide Low32, Reg, SetReg, At, Lane, LaneNumber, ShiftOf, ScaleOf, ToWord;
    LaneComputes(s, f, p, 0);
    LaneComputes(s, f, p, 1);
    LaneComputes(s, f, p, 2);
    LaneComputes(s, f, p, 3);
  }

  /** The sum of the four lanes, in one register. */
  function Dotted(factor: Factor, r: bv32, vector: bv32, scale: int, d: bv32, regs: Registers, p: Registers): Registers {
    SetReg(regs, d, ToWord((LaneNumber(factor, r, vector, p, 0) + LaneNumber(factor, r, vector, p, 1) + LaneNumber(factor, r, vector, p, 2)
                            + LaneNumber(factor, r, vector, p, 3)) * scale))
  }

  lemma NoScale(x: bv32)
    ensures ShiftedUp(x, 0) == x
  {
  }

  lemma UnscaledLane(s: Shape, f: Fields, p: Registers, lane: bv32)
    ensures Num32(Lane(s, f, p, lane, 0)) == LaneNumber(s.factor, Low32(f.f2), Low32(f.f3), p, lane) % TWO_32
  {
    hide Num32, Low32, Reg, At, Upper16, FactorOf, LaneNumber, Mul32, ShiftedUp;
    LaneIs(s, f, p, lane);
    NoScale(Mul32(FactorOf(s.factor, f, p, lane), Upper16(Reg(p, At(Low32(f.f3), lane)))));
  }

  lemma DotComputes(s: Shape, f: Fields, regs: Registers, p: Registers)
    requires !s.svshift ==> f.f1 <= 3
    ensures DotProduct(s, f, regs, p) == Dotted(s.factor, Low32(f.f2), Low32(f.f3), ScaleOf(s, f, p), Low32(f.f4), regs, p)
  {
    hide Num32, Low32, Reg, SetReg, Lane, LaneNumber, ShiftOf, ScaleOf, ShiftedUp, ToWord, Add32;
    var (r, vector) := (Low32(f.f2), Low32(f.f3));
    var (a, b, c, d) := (LaneNumber(s.factor, r, vector, p, 0), LaneNumber(s.factor, r, vector, p, 1),
                         LaneNumber(s.factor, r, vector, p, 2), LaneNumber(s.factor, r, vector, p, 3));
    UnscaledLane(s, f, p, 0);
    UnscaledLane(s, f, p, 1);
    UnscaledLane(s, f, p, 2);
    UnscaledLane(s, f, p, 3);
    SumOfFour(Lane(s, f, p, 0, 0), Lane(s, f, p, 1, 0), Lane(s, f, p, 2, 0), Lane(s, f, p, 3, 0), a, b, c, d);
    ShiftIs(s, f, p, Sum4(Lane(s, f, p, 0, 0), Lane(s, f, p, 1, 0), Lane(s, f, p, 2, 0), Lane(s, f, p, 3, 0)), a + b + c + d);
  }

  lemma SumOfFour(w: bv32, x: bv32, y: bv32, z: bv32, a: int, b: int, c: int, d: int)
    requires Num32(w) == a % TWO_32 && Num32(x) == b % TWO_32 && Num32(y) == c % TWO_32 && Num32(z) == d % TWO_32
    ensures Num32(Sum4(w, x, y, z)) == (a + b + c + d) % TWO_32
  {
    hide Num32, Add32;
    AddIs(w, x, a, b);
    AddIs(Add32(w, x), y, a + b, c);
    AddIs(Add32(Add32(w, x), y), z, a + b + c, d);
  }
}
