/** What the multiplier's handlers compute, as arithmetic on signed numbers. */
module MulArithmetic {
  import opened Conversions
  import opened ExecuteMul
  import opened Handlers
  import opened Machine
  import opened Mixing
  import opened Products
  import opened SignedWords
  import opened Words

  // ---- The product ----

  lemma ModProduct(a: int, b: int, m: int)
    requires m > 0
    ensures ((a % m) * (b % m)) % m == (a * b) % m
  {
    ModTimes(a, b % m, m);
    ModTimes(b, a, m);
    assert a * (b % m) == (b % m) * a && b * a == a * b;
  }

  lemma ProductWritten(x: bv32, y: bv32)
    ensures Product64(x, y) == Mul64(SignExtend(x), SignExtend(y))
  {
    hide SignExtend;
  }

  lemma ProductRange(a: int, b: int)
    requires -0x80000000 <= a < 0x80000000 && -0x80000000 <= b < 0x80000000
    ensures -0x4000000000000000 <= a * b <= 0x4000000000000000
  {
    if b >= 0 {
      TimesBelow(a, b);
    } else {
      TimesBelow(a, -b);
      assert a * -b == -(a * b);
    }
  }

  lemma TimesBelow(a: int, b: int)
    requires -0x80000000 <= a <= 0x80000000 && 0 <= b <= 0x80000000
    ensures -0x4000000000000000 <= a * b <= 0x4000000000000000
  {
    NotNegative(0x80000000 - a, b);
    NotNegative(0x80000000 + a, b);
  }

  /** The 64-bit product is the product of the signed numbers. */
  lemma ProductSigned(x: bv32, y: bv32)
    ensures Signed64(Product64(x, y)) == Signed(x) * Signed(y)
    ensures Num(Product64(x, y)) == (Signed(x) * Signed(y)) % TWO_64
  {
    hide Num, Num32, Signed, Signed64, SignExtend, Product64, Mul64;
    ProductWritten(x, y);
    MulNum(SignExtend(x), SignExtend(y));
    ExtendedSigned(x);
    ExtendedSigned(y);
    SignedRange(SignExtend(x));
    SignedRange(SignExtend(y));
    ModProduct(Signed(x), Signed(y), TWO_64);
    SignedRange32(x);
    SignedRange32(y);
    ProductRange(Signed(x), Signed(y));
    SignedIs(Product64(x, y), Signed(x) * Signed(y));
  }

  // ---- Shifts of it ----

  lemma AmountNum(n: bv7)
    ensures Num(n as bv64) == n as nat
  {
  }

  lemma AmountBack(n: bv64)
    requires n <= 64
    ensures Amount64(n) as bv64 == n
  {
  }

  lemma AmountIs(n: bv64)
    requires n <= 64
    ensures Amount(Amount64(n)) == Num(n)
  {
    hide Num, Amount64;
    AmountBack(n);
    AmountNum(Amount64(n));
  }

  lemma AllShiftedOut(x: bv64)
    ensures Left(x, Amount64(64)) == 0
  {
  }

  lemma ShlNum(x: bv64, n: bv64)
    requires n <= 64
    ensures Num(Shl64(x, n)) == (Num(x) * Pow2(Num(n))) % TWO_64
  {
    hide Num, Left, Amount64, Amount;
    AllShiftedOut(x);
    AmountIs(n);
    LeftNum(x, Amount64(n));
  }

  lemma FloorOfNegative(k: nat, p: nat)
    requires p > 0
    ensures (-1 - k) / p == -1 - k / p
  {
    DivUnique(-1 - k, p, -1 - k / p, p - 1 - k % p);
  }

  lemma QuotientSmall(a: nat, p: nat)
    requires p > 0
    ensures 0 <= a / p <= a
  {
    NotNegative(a / p, p - 1);
    assert a / p * (p - 1) == a / p * p - a / p;
  }

  /** An arithmetic shift to the right rounds down. */
  lemma AsrSigned(x: bv64, n: bv64)
    requires n < 64
    ensures Signed64(Asr64(x, n)) == Signed64(x) / Pow2(Num(n))
  {
    hide Num, Right, Amount64, Amount, Not64, Negative64;
    AmountIs(n);
    var p := Pow2(Num(n));
    SignNum(x);
    NumBelow(x);
    if Negative64(x) {
      var y := Right(Not64(x), Amount64(n));
      RightNum(Not64(x), Amount64(n));
      NotNum(x);
      NotNum(y);
      SignNum(Not64(y));
      QuotientSmall(Num(Not64(x)), p);
      FloorOfNegative(Num(Not64(x)), p);
    } else {
      RightNum(x, Amount64(n));
      SignNum(Right(x, Amount64(n)));
      QuotientSmall(Num(x), p);
    }
  }

  // ---- Parts of a word ----

  lemma Powers()
    ensures Pow2(0) == 1 && Pow2(2) == 4 && Pow2(3) == 8 && Pow2(7) == 128 && Pow2(8) == 256 && Pow2(14) == 16384
    ensures Pow2(16) == 65536 && Pow2(24) == 16777216
  {
  }

  /** The part of a word below its bit n is the remainder. */
  lemma PartNum(x: bv64, low: bv64, n: bv7)
    requires n <= 64 && Add64(Left(Right(x, n), n), low) == x && Right(low, n) == 0
    ensures Num(low) == Num(x) % Pow2(Amount(n))
  {
    hide Num, Left, Right, Amount, Add64;
    var p, a, b := Pow2(Amount(n)), Num(x), Num(low);
    RightNum(x, n);
    RightNum(low, n);
    OneNum();
    LeftNum(Right(x, n), n);
    AddNum(Left(Right(x, n), n), low);
    NumBelow(x);
    NumBelow(low);
    MultipleFits(a, p);
    RemainderOf(a, b, p);
  }

  lemma MultipleFits(a: nat, p: nat)
    requires p > 0 && a < TWO_64
    ensures 0 <= a / p * p <= a && (a / p * p) % TWO_64 == a / p * p
  {
    NotNegative(a / p, p);
  }

  lemma RemainderOf(a: nat, b: nat, p: nat)
    requires p > 0 && b / p == 0 && a < TWO_64 && b < TWO_64
    requires a == a / p * p + b || a == a / p * p + b - TWO_64
    requires a / p * p <= a
    ensures b == a % p
  {
    DivUnique(b, p, 0, b % p);
    assert a / p * p + a % p == a;
  }

  // ---- What reaches the destination ----

  predicate Fits32(z: int) { -0x80000000 <= z < 0x80000000 }

  /** What is left of a number in a 64-bit register. */
  function InRegister(z: int): int { (z + 0x8000000000000000) % TWO_64 - 0x8000000000000000 }

  lemma InRegisterCongruent(z: int)
    ensures -0x8000000000000000 <= InRegister(z) < 0x8000000000000000 && InRegister(z) % TWO_64 == z % TWO_64
    ensures -0x8000000000000000 <= z < 0x8000000000000000 ==> InRegister(z) == z
  {
  }

  lemma CongruentSmall(a: int, b: int)
    requires Fits32(a) && Fits32(b) && a % TWO_32 == b % TWO_32
    ensures a == b
  {
  }

  lemma LowOfModulus(z: int)
    ensures (z % TWO_64) % TWO_32 == z % TWO_32
  {
    var q := z / TWO_64;
    assert z == q * TWO_32 * TWO_32 + z % TWO_64;
    ModPlus(z % TWO_64, q * TWO_32, TWO_32);
  }

  predicate Bit31(x: bv64) { x & 0x80000000 != 0 }
  function WithZeros(x: bv64): bv64 { x & 0xFFFFFFFF }
  function WithOnes(x: bv64): bv64 { x | 0xFFFFFFFF00000000 }

  lemma SignOfLow(x: bv64)
    ensures Low32(x) & 0x80000000 != 0 <==> Bit31(x)
  {
  }

  lemma WidenedLow(x: bv64)
    ensures Low32(x) as bv64 == WithZeros(x)
  {
  }

  lemma OnesOverLow(x: bv64)
    ensures WithZeros(x) | 0xFFFFFFFF00000000 == WithOnes(x)
  {
  }

  lemma ExtendedLow(x: bv64)
    ensures SignExtend(Low32(x)) == if Bit31(x) then WithOnes(x) else WithZeros(x)
  {
    hide Low32, Bit31, WithZeros, WithOnes;
    SignOfLow(x);
    WidenedLow(x);
    OnesOverLow(x);
  }

  lemma UpperZeros(x: bv64)
    requires !Bit31(x)
    ensures Overflows(x) <==> WithZeros(x) != x
  {
  }

  lemma UpperOnes(x: bv64)
    requires Bit31(x)
    ensures Overflows(x) <==> WithOnes(x) != x
  {
  }

  lemma OverflowsUnlessExtended(x: bv64)
    ensures Overflows(x) <==> x != SignExtend(Low32(x))
  {
    hide SignExtend, Low32, Overflows, Bit31, WithZeros, WithOnes;
    ExtendedLow(x);
    if Bit31(x) { UpperOnes(x); } else { UpperZeros(x); }
  }

  lemma LowSigned(x: bv64)
    ensures Num32(Low32(x)) == Signed64(x) % TWO_32
  {
    hide Num, Num32, Signed64;
    LowNum(x);
    SignedRange(x);
    LowOfModulus(Signed64(x));
  }

  lemma SameSigned(x: bv64, y: bv64)
    requires Signed64(x) == Signed64(y)
    ensures x == y
  {
    hide Num, Signed64;
    SignedRange(x);
    SignedRange(y);
    SameNum(x, y);
  }

  /** The overflow test asks whether the signed number fits into 32 bits. */
  lemma OverflowsIs(x: bv64)
    ensures Overflows(x) <==> !Fits32(Signed64(x))
  {
    hide Num, Num32, Signed, Signed64, Overflows, Low32, SignExtend;
    var y := Low32(x);
    OverflowsUnlessExtended(x);
    ExtendedSigned(y);
    SignedRange32(y);
    LowSigned(x);
    if Fits32(Signed64(x)) {
      CongruentSmall(Signed(y), Signed64(x));
      SameSigned(x, SignExtend(y));
    }
  }

  /** The destination keeps the lower 32 bits of a number, and the flag says whether the register held more. */
  function Multiplied(regs: Registers, d: bv32, v: int): Registers {
    var cc := Reg(regs, CC);
    SetReg(SetReg(regs, CC, if Fits32(InRegister(v)) then ClearBits(cc, MUL_OVERFLOW) else SetBits(cc, MUL_OVERFLOW)), d, ToWord(v))
  }

  lemma MultipliedIs(regs: Registers, d: bv32, r: bv64, v: int)
    requires Num(r) == v % TWO_64
    ensures SetReg(SetReg(regs, CC, MulFlags(Reg(regs, CC), r)), d, Low32(r)) == Multiplied(regs, d, v)
  {
    hide Num, Num32, Signed64, Reg, SetReg, Overflows, Low32, ToWord, InRegister, SetBits, ClearBits;
    InRegisterCongruent(v);
    SignedIs(r, InRegister(v));
    OverflowsIs(r);
    LowNum(r);
    LowOfModulus(v);
    ToWordIs(Low32(r), v);
  }

  // ---- Scalar products ----

  /** To the right by a number of bits, rounding down, or to the left by its negation. */
  function Shift(v: int, a: int): int { if a >= 0 then v / Pow2(a) else v * Pow2(-a) }

  /** Seven bits with a sign. */
  function SevenSigned(z: nat): int { if z % 128 < 64 then z % 128 else z % 128 - 128 }

  function SevenBits(x: bv32): bv32 { x & 0x7F }
  function From128(s: bv32): bv32 { 128 - s }
  predicate Bit6(s: bv32) { s & 0x40 != 0 }

  lemma SevenPart(x: bv32)
    ensures Add64(Left(Right(Widen(x), 7), 7), Widen(SevenBits(x))) == Widen(x) && Right(Widen(SevenBits(x)), 7) == 0
  {
  }

  lemma SevenNum(x: bv32)
    ensures Num32(SevenBits(x)) == Num32(x) % 128
  {
    hide Num, Num32, Left, Right, Widen, SevenBits, Add64, Pow2;
    SevenPart(x);
    PartNum(Widen(x), Widen(SevenBits(x)), 7);
    SevenAmount();
    NumOfWidened(x);
    NumOfWidened(SevenBits(x));
  }

  lemma SevenAmount()
    ensures Pow2(Amount(7)) == 128
  {
    Powers();
    AmountNumber7();
  }

  lemma AmountNumber7()
    ensures Amount(7) == 7
  {
  }

  lemma ToComplement(s: bv32)
    requires s < 128
    ensures Add64(Widen(s), Widen(From128(s))) == 128 && From128(s) <= 128
  {
  }

  lemma NumberOf128()
    ensures Num(128) == 128 && Num(64) == 64
  {
  }

  lemma From128Num(s: bv32)
    requires s < 128
    ensures Num32(From128(s)) == 128 - Num32(s)
  {
    hide Num, Num32, Widen, Add64, From128;
    ToComplement(s);
    NumOfWidened(s);
    NumOfWidened(From128(s));
    AddNum(Widen(s), Widen(From128(s)));
    NumberOf128();
  }

  lemma Bit6Num(s: bv7)
    ensures s & 0x40 != 0 <==> s as nat >= 64
  {
  }

  lemma SevenAsSmall(x: bv32)
    ensures SevenBits(x) < 128 && Widen(SevenBits(x)) == (SevenBits(x) as bv7) as bv64
    ensures Bit6(SevenBits(x)) <==> (SevenBits(x) as bv7) & 0x40 != 0
    ensures Bit6(SevenBits(x)) ==> Widen(From128(SevenBits(x))) <= 64
    ensures !Bit6(SevenBits(x)) ==> Widen(SevenBits(x)) < 64
  {
  }

  lemma SignOfSeven(x: bv32)
    ensures SevenBits(x) < 128 && (Bit6(SevenBits(x)) <==> Num32(SevenBits(x)) >= 64)
    ensures Bit6(SevenBits(x)) ==> Widen(From128(SevenBits(x))) <= 64
    ensures !Bit6(SevenBits(x)) ==> Widen(SevenBits(x)) < 64
  {
    hide Num, Num32, Widen, SevenBits, From128, Bit6;
    SevenAsSmall(x);
    Bit6Num(SevenBits(x) as bv7);
    AmountNum(SevenBits(x) as bv7);
    NumOfWidened(SevenBits(x));
  }

  /** A shift by an amount from a register. */
  lemma ShiftedIs(x: bv64, amount: bv32)
    ensures Num(Shifted(x, amount)) == Shift(Signed64(x), SevenSigned(Num32(amount))) % TWO_64
  {
    hide Num, Num32, Signed64, Widen, SevenBits, From128, Bit6, Shl64, Asr64;
    var s := SevenBits(amount);
    SevenNum(amount);
    SignOfSeven(amount);
    ShiftedWritten(x, amount);
    NumOfWidened(s);
    if Bit6(s) {
      From128Num(s);
      NumOfWidened(From128(s));
      ShlSigned(x, Widen(From128(s)));
    } else {
      AsrSigned(x, Widen(s));
      SignedRange(Asr64(x, Widen(s)));
    }
  }

  lemma ShiftedWritten(x: bv64, amount: bv32)
    ensures Shifted(x, amount) == if Bit6(SevenBits(amount)) then Shl64(x, Widen(From128(SevenBits(amount)))) else Asr64(x, Widen(SevenBits(amount)))
  {
    hide Shl64, Asr64, Widen;
  }

  lemma ShlSigned(x: bv64, n: bv64)
    requires n <= 64
    ensures Num(Shl64(x, n)) == (Signed64(x) * Pow2(Num(n))) % TWO_64
  {
    hide Num, Signed64, Shl64;
    ShlNum(x, n);
    SignedRange(x);
    ModTimes(Signed64(x), Pow2(Num(n)), TWO_64);
  }

  function FirstFactor(f: Fields, p: Registers): int {
    Signed(if ImmediateTimes(f.handler) then Low32(f.f2) else Reg(p, Low32(f.f2)))
  }

  /** By how much a handler's product is shifted to the right. */
  function AmountOf(f: Fields, p: Registers): int {
    if f.handler == MUL_SCALAR_ACSHIFT || f.handler == MUL_IMMEDIATE_ACSHIFT then SevenSigned(Num32(Reg(p, ACSHIFT)))
    else if f.handler == MUL_SCALAR_SCALAR || f.handler == MUL_IMMEDIATE_SCALAR then SevenSigned(Num32(Reg(p, Low32(f.f1))))
    else if f.handler == MUL_SCALAR_RIGHT || f.handler == MUL_IMMEDIATE_RIGHT then Num(f.f1)
    else -(Num(f.f1) as int)
  }

  /** The amounts that the decoder makes. */
  predicate AmountFits(f: Fields) {
    && (f.handler == MUL_SCALAR_RIGHT || f.handler == MUL_IMMEDIATE_RIGHT ==> f.f1 < 64)
    && (f.handler == MUL_SCALAR_LEFT || f.handler == MUL_IMMEDIATE_LEFT ==> f.f1 <= 64)
  }

  lemma FromImmediate(f: Fields, x: bv64)
    requires AmountFits(f) && IsScalar(f.handler) && !ShiftByAcshift(f.handler) && !ShiftByScalar(f.handler)
    ensures f.handler == MUL_SCALAR_RIGHT || f.handler == MUL_IMMEDIATE_RIGHT ==> Num(Asr64(x, f.f1)) == Shift(Signed64(x), Num(f.f1)) % TWO_64
    ensures f.handler == MUL_SCALAR_LEFT || f.handler == MUL_IMMEDIATE_LEFT
            ==> Num(Shl64(x, f.f1)) == Shift(Signed64(x), -(Num(f.f1) as int)) % TWO_64
    ensures f.handler == MUL_SCALAR_RIGHT || f.handler == MUL_IMMEDIATE_RIGHT || f.handler == MUL_SCALAR_LEFT || f.handler == MUL_IMMEDIATE_LEFT
  {
    hide Num, Signed64, Shl64, Asr64;
    if f.handler == MUL_SCALAR_RIGHT || f.handler == MUL_IMMEDIATE_RIGHT {
      AsrSigned(x, f.f1);
      SignedRange(Asr64(x, f.f1));
    }
    if f.handler == MUL_SCALAR_LEFT || f.handler == MUL_IMMEDIATE_LEFT { ShlSigned(x, f.f1); }
  }

  lemma FlagSet(cc: bv32)
    ensures ClearBits(cc, MUL_OVERFLOW) & MUL_OVERFLOW == 0 && SetBits(cc, MUL_OVERFLOW) & MUL_OVERFLOW != 0
  {
  }

  /** The flag stays clear if and only if the destination, as a signed number, is all that the register held: for a shift to the
      right, the exact quotient rounded down. */
  lemma FlagIsExact(f: Fields, regs: Registers, p: Registers)
    requires IsScalar(f.handler) && AmountFits(f) && Low32(f.f4) < 32
    ensures var q, v := ScalarProduct(f, regs, p), Shift(FirstFactor(f, p) * Signed(Reg(p, Low32(f.f3))), AmountOf(f, p));
            && (Reg(q, CC) & MUL_OVERFLOW == 0 <==> Signed(Reg(q, Low32(f.f4))) == InRegister(v))
            && (AmountOf(f, p) >= 0 ==> InRegister(v) == v)
  {
    hide Signed, Signed64, Low32, InRegister, Reg, SetReg, SetBits, ClearBits, Overflows, FirstFactor, AmountOf, AmountFits, ScalarResult, Shift;
    var r, cc, d := ScalarResult(f, p), Reg(regs, CC), Low32(f.f4);
    ResultIs(f, p);
    OverflowsIs(r);
    FlagSet(cc);
    RegAfterSet(regs, CC, MulFlags(cc, r), CC);
    RegAfterSet(SetReg(regs, CC, MulFlags(cc, r)), d, Low32(r), CC);
    RegAfterSet(SetReg(regs, CC, MulFlags(cc, r)), d, Low32(r), d);
    LowSigned(r);
    SignedRange32(Low32(r));
    hide Num32;
    if Fits32(Signed64(r)) { CongruentSmall(Signed(Low32(r)), Signed64(r)); }
  }

  /** What the 64-bit register holds. */
  lemma ResultIs(f: Fields, p: Registers)
    requires IsScalar(f.handler) && AmountFits(f)
    ensures var v := Shift(FirstFactor(f, p) * Signed(Reg(p, Low32(f.f3))), AmountOf(f, p));
            && Num(ScalarResult(f, p)) == v % TWO_64 && Signed64(ScalarResult(f, p)) == InRegister(v)
            && (AmountOf(f, p) >= 0 ==> InRegister(v) == v)
  {
    hide Num, Num32, Signed, Signed64, Reg, Low32, Shl64, Asr64, Shifted, Product64, Shift, InRegister, SevenSigned;
    var x := if ImmediateTimes(f.handler) then Low32(f.f2) else Reg(p, Low32(f.f2));
    var y := Reg(p, Low32(f.f3));
    var product := Product64(x, y);
    ProductSigned(x, y);
    ShiftedIs(product, Reg(p, ACSHIFT));
    ShiftedIs(product, Reg(p, Low32(f.f1)));
    if !ShiftByAcshift(f.handler) && !ShiftByScalar(f.handler) { FromImmediate(f, product); }
    var v := Shift(Signed(x) * Signed(y), AmountOf(f, p));
    InRegisterCongruent(v);
    SignedIs(ScalarResult(f, p), InRegister(v));
    SignedRange(product);
    if AmountOf(f, p) >= 0 { ShiftFits(Signed64(product), AmountOf(f, p)); }
  }

  lemma ShiftFits(v: int, a: nat)
    requires -0x8000000000000000 <= v < 0x8000000000000000
    ensures -0x8000000000000000 <= Shift(v, a) < 0x8000000000000000
  {
    if v >= 0 {
      QuotientSmall(v, Pow2(a));
    } else {
      FloorOfNegative(-1 - v, Pow2(a));
      QuotientSmall(-1 - v, Pow2(a));
    }
  }

  /** Every scalar product is the product of the signed operands, shifted, and the flag is that of what is left in the register. */
  lemma ScalarComputes(f: Fields, regs: Registers, p: Registers)
    requires IsScalar(f.handler) && AmountFits(f)
    ensures ScalarProduct(f, regs, p) == Multiplied(regs, Low32(f.f4), Shift(FirstFactor(f, p) * Signed(Reg(p, Low32(f.f3))), AmountOf(f, p)))
  {
    hide Num, Signed, Signed64, Reg, SetReg, Low32, ScalarResult, MulFlags, Multiplied, Shift, FirstFactor, AmountOf, AmountFits;
    ResultIs(f, p);
    MultipliedIs(regs, Low32(f.f4), ScalarResult(f, p), Shift(FirstFactor(f, p) * Signed(Reg(p, Low32(f.f3))), AmountOf(f, p)));
  }
}
