/** Machine words as signed numbers, and the shifts and products of the handlers as arithmetic on them. */
module SignedWords {
  import opened Conversions
  import opened Mixing
  import opened Products
  import opened Words

  function Num32(x: bv32): nat { x as nat }

  /** The number that a word stands for in two's complement. */
  function Signed(x: bv32): int {
    if x & 0x80000000 != 0 then Num32(x) - TWO_32 else Num32(x)
  }

  function Signed64(x: bv64): int {
    if Negative64(x) then Num(x) - TWO_64 else Num(x)
  }

  /** The word that keeps the lower 32 bits of a number. */
  function ToWord(z: int): bv32 { (z % TWO_32) as bv32 }

  function Pow2(n: nat): (p: nat)
    ensures p > 0
  {
    if n == 0 then 1 else 2 * Pow2(n - 1)
  }

  predicate Negative64(x: bv64) { x & 0x8000000000000000 != 0 }
  function Not64(x: bv64): bv64 { !x }

  // ---- Words and numbers ----

  lemma NumWiden(x: bv32)
    ensures Num(x as bv64) == Num32(x) < TWO_32
  {
  }

  lemma NumOfWidened(x: bv32)
    ensures Num(Widen(x)) == Num32(x) < TWO_32
  {
    hide Num, Num32;
    NumWiden(x);
  }

  lemma NumSigned(x: bv32)
    ensures Num((x as bv64) | 0xFFFFFFFF00000000) == Num32(x) + 0xFFFFFFFF00000000
  {
  }

  lemma ToWordKnown(x: bv32)
    ensures x as nat < TWO_32 && (x as nat) as bv32 == x && Num32(x) == x as nat
  {
  }

  /** A word is the lower 32 bits of a number if it stands for the number's remainder. */
  lemma ToWordIs(x: bv32, z: int)
    requires Num32(x) == z % TWO_32
    ensures ToWord(z) == x
  {
    hide Num32;
    ToWordKnown(x);
  }

  lemma EqualNums(x: bv32, y: bv32)
    ensures x == y <==> Num32(x) == Num32(y)
  {
    hide Num32;
    ToWordKnown(x);
    ToWordKnown(y);
  }

  lemma LowOfHalf32(x: bv64)
    ensures LowHalf(x) == Widen(Low32(x))
  {
  }

  lemma LowNum(x: bv64)
    ensures Num32(Low32(x)) == Num(x) % TWO_32
  {
    hide Num, Num32, LowHalf, HighHalf, Widen, Low32;
    LowOfHalf32(x);
    NumOfWidened(Low32(x));
    HalvesNum(x);
    ModOfParts(Num(x), Num(HighHalf(x)), Num(LowHalf(x)));
  }

  lemma ModOfParts(n: nat, high: nat, low: nat)
    requires n == high * TWO_32 + low && low < TWO_32
    ensures n % TWO_32 == low
  {
  }

  // ---- Signs ----

  lemma TopBitNum(x: bv64)
    requires x & 0x8000000000000000 == 0
    ensures Num(x | 0x8000000000000000) == Num(x) + 0x8000000000000000
  {
  }

  lemma TopBitSplits(x: bv64)
    ensures (x & 0x7FFFFFFFFFFFFFFF) & 0x8000000000000000 == 0
    ensures x & 0x8000000000000000 == 0 ==> x == x & 0x7FFFFFFFFFFFFFFF
    ensures x & 0x8000000000000000 != 0 ==> x == (x & 0x7FFFFFFFFFFFFFFF) | 0x8000000000000000
  {
  }

  lemma SignNum(x: bv64)
    ensures Negative64(x) <==> Num(x) >= 0x8000000000000000
  {
    hide Num;
    TopBitSplits(x);
    TopBitNum(x & 0x7FFFFFFFFFFFFFFF);
    NumBelow((x & 0x7FFFFFFFFFFFFFFF) | 0x8000000000000000);
  }

  lemma SignedRange(x: bv64)
    ensures -0x8000000000000000 <= Signed64(x) < 0x8000000000000000
    ensures Signed64(x) % TWO_64 == Num(x)
  {
    hide Num;
    SignNum(x);
    NumBelow(x);
  }

  /** A number that fits is the signed number of the word that keeps its lower 64 bits. */
  lemma SignedIs(x: bv64, z: int)
    requires -0x8000000000000000 <= z < 0x8000000000000000 && Num(x) == z % TWO_64
    ensures Signed64(x) == z
  {
    hide Num;
    SignNum(x);
  }

  lemma SignNum32(x: bv32)
    ensures x & 0x80000000 != 0 <==> Num32(x) >= 0x80000000
  {
    hide Num32;
    TopBit32Splits(x);
    TopBit32Num(x & 0x7FFFFFFF);
    NumWiden((x & 0x7FFFFFFF) | 0x80000000);
  }

  lemma TopBit32Num(x: bv32)
    requires x & 0x80000000 == 0
    ensures Num32(x | 0x80000000) == Num32(x) + 0x80000000
  {
  }

  lemma TopBit32Splits(x: bv32)
    ensures (x & 0x7FFFFFFF) & 0x80000000 == 0
    ensures x & 0x80000000 == 0 ==> x == x & 0x7FFFFFFF
    ensures x & 0x80000000 != 0 ==> x == (x & 0x7FFFFFFF) | 0x80000000
  {
  }

  lemma SignedRange32(x: bv32)
    ensures -0x80000000 <= Signed(x) < 0x80000000 && Signed(x) % TWO_32 == Num32(x)
  {
    hide Num32;
    SignNum32(x);
    NumOfWidened(x);
    hide Num;
  }

  lemma ExtendedSign(x: bv32)
    ensures Negative64(SignExtend(x)) <==> x & 0x80000000 != 0
  {
  }

  lemma ExtendedNum(x: bv32)
    ensures Num(SignExtend(x)) == if x & 0x80000000 != 0 then Num32(x) + 0xFFFFFFFF00000000 else Num32(x)
  {
    hide Num, Num32;
    NumWiden(x);
    NumSigned(x);
  }

  lemma ExtendedSigned(x: bv32)
    ensures Signed64(SignExtend(x)) == Signed(x)
  {
    hide Num, Num32, SignExtend;
    ExtendedSign(x);
    ExtendedNum(x);
  }

  lemma SumToOnes(x: bv64)
    ensures Add64(x, !x) == 0xFFFFFFFFFFFFFFFF
  {
  }

  lemma OnesNum()
    ensures Num(0xFFFFFFFFFFFFFFFF) == TWO_64 - 1
  {
  }

  lemma NotNum(x: bv64)
    ensures Num(Not64(x)) == TWO_64 - 1 - Num(x)
  {
    hide Num, Add64;
    SumToOnes(x);
    OnesNum();
    AddNum(x, !x);
    NumBelow(x);
    NumBelow(!x);
  }

  // ---- Shifts ----

  function Amount(n: bv7): nat { n as nat }
  /** The amount of a shift, from the lower bits of a word. */
  function Amount64(n: bv64): (a: bv7)
    ensures n <= 64 ==> a <= 64
  {
    (n & 0x7F) as bv7
  }

  function Half(x: bv64): bv64 { x >> 1 }
  function Bit0(x: bv64): bv64 { x & 1 }
  function Right(x: bv64, n: bv7): bv64
    requires n <= 64
  {
    x >> n
  }
  function Left(x: bv64, n: bv7): bv64
    requires n <= 64
  {
    x << n
  }

  lemma Halved(x: bv64)
    ensures Add64(Add64(x >> 1, x >> 1), x & 1) == x
  {
  }

  lemma HalvesSum(x: bv64)
    ensures Add64(Add64(Half(x), Half(x)), Bit0(x)) == x
  {
    Halved(x);
  }

  lemma BitNum(x: bv64)
    ensures Bit0(x) == 0 || Bit0(x) == 1
  {
  }

  lemma HalfSmall(x: bv64)
    ensures Half(x) & 0x8000000000000000 == 0
  {
  }

  lemma HalfNum(x: bv64)
    ensures Num(Half(x)) == Num(x) / 2
  {
    hide Num, Half, Bit0, Add64;
    HalvesSum(x);
    HalfSmall(x);
    SignNum(Half(x));
    AddNum(Half(x), Half(x));
    AddNum(Add64(Half(x), Half(x)), Bit0(x));
    BitNum(x);
    OneNum();
  }

  /** The largest power of two below an amount. */
  function Top(n: bv7): bv7 {
    if n > 32 then 32 else if n > 16 then 16 else if n > 8 then 8 else if n > 4 then 4 else if n > 2 then 2 else 1
  }

  function Beside(n: bv7): bv7 { n - Top(n) }

  lemma TopAmount(n: bv7)
    requires 1 < n <= 64
    ensures 0 < Top(n) < n && Beside(n) < n && Beside(n) <= Top(n) && Top(n) <= 32
    ensures Amount(n) == Amount(Beside(n)) + Amount(Top(n)) && Amount(Beside(n)) < Amount(n) && Amount(Top(n)) < Amount(n)
  {
  }

  lemma By1(x: bv64, n: bv7)
    requires n <= 1
    ensures Right(x, n + 1) == Right(Right(x, n), 1) && Left(x, n + 1) == Left(Left(x, n), 1)
  {
  }

  lemma By2(x: bv64, n: bv7)
    requires n <= 2
    ensures Right(x, n + 2) == Right(Right(x, n), 2) && Left(x, n + 2) == Left(Left(x, n), 2)
  {
  }

  lemma By4(x: bv64, n: bv7)
    requires n <= 4
    ensures Right(x, n + 4) == Right(Right(x, n), 4) && Left(x, n + 4) == Left(Left(x, n), 4)
  {
  }

  lemma By8(x: bv64, n: bv7)
    requires n <= 8
    ensures Right(x, n + 8) == Right(Right(x, n), 8) && Left(x, n + 8) == Left(Left(x, n), 8)
  {
  }

  lemma By16(x: bv64, n: bv7)
    requires n <= 16
    ensures Right(x, n + 16) == Right(Right(x, n), 16) && Left(x, n + 16) == Left(Left(x, n), 16)
  {
  }

  lemma By32(x: bv64, n: bv7)
    requires n <= 32
    ensures Right(x, n + 32) == Right(Right(x, n), 32) && Left(x, n + 32) == Left(Left(x, n), 32)
  {
  }

  lemma SmallShifts(x: bv64)
    ensures Right(x, 0) == x && Left(x, 0) == x && Amount(0) == 0 && Amount(1) == 1
    ensures Right(x, 1) == Half(x) && Left(x, 1) == Add64(x, x)
  {
  }

  lemma SmallAmount(n: bv7)
    ensures n <= 1 ==> n == 0 || n == 1
  {
  }

  lemma {:induction false} Pow2Adds(a: nat, b: nat)
    ensures Pow2(a + b) == Pow2(a) * Pow2(b)
  {
    if a > 0 { Pow2Adds(a - 1, b); }
  }

  /** A shift to the right divides. */
  lemma {:induction false} RightNum(x: bv64, n: bv7)
    requires n <= 64
    ensures Num(Right(x, n)) == Num(x) / Pow2(Amount(n))
    decreases Amount(n)
  {
    hide Num, Amount, Right, Half, Top, Beside;
    SmallShifts(x);
    SmallAmount(n);
    HalfNum(x);
    if n > 1 {
      TopAmount(n);
      InSteps(x, n);
      RightNum(x, Beside(n));
      RightNum(Right(x, Beside(n)), Top(n));
      Pow2Adds(Amount(Beside(n)), Amount(Top(n)));
      DivTwice(Num(x), Pow2(Amount(Beside(n))), Pow2(Amount(Top(n))));
    }
  }

  /** A shift by an amount is a shift by a part of it and then by the largest power of two below it. */
  lemma InSteps(x: bv64, n: bv7)
    requires 1 < n <= 64
    ensures Beside(n) <= 64 && Top(n) <= 64
    ensures Right(x, n) == Right(Right(x, Beside(n)), Top(n)) && Left(x, n) == Left(Left(x, Beside(n)), Top(n))
  {
    hide Right, Left;
    if n > 32 {
      By32(x, n - 32);
    } else if n > 16 {
      By16(x, n - 16);
    } else if n > 8 {
      By8(x, n - 8);
    } else if n > 4 {
      By4(x, n - 4);
    } else if n > 2 {
      By2(x, n - 2);
    } else {
      By1(x, n - 1);
    }
  }

  lemma DivTwice(a: int, p: nat, q: nat)
    requires p > 0 && q > 0
    ensures p * q > 0 && (a / p) / q == a / (p * q)
  {
    var b, r := a / p, a % p;
    var c, s := b / q, b % q;
    assert b * p == c * q * p + s * p;
    ProductBelow(p, q, r, s);
    DivUnique(a, p * q, c, s * p + r);
  }

  lemma ProductBelow(p: int, q: int, r: int, s: int)
    requires 0 <= r < p && 0 <= s < q
    ensures 0 <= s * p + r < p * q
  {
    assert (q - 1 - s) * p == p * q - p - s * p;
    NotNegative(q - 1 - s, p);
    NotNegative(s, p);
  }

  lemma NotNegative(a: int, b: int)
    requires a >= 0 && b >= 0
    ensures a * b >= 0
  {
  }

  lemma DivUnique(a: int, d: int, q: int, r: int)
    requires d > 0 && a == q * d + r && 0 <= r < d
    ensures a / d == q && a % d == r
  {
    var q', r' := a / d, a % d;
    assert (q' - q) * d == r - r';
    MultipleBelow(q' - q, d);
  }

  lemma MultipleBelow(k: int, d: int)
    requires -d < k * d < d
    ensures k == 0
  {
    if k > 0 {
      AtLeast(k, d);
    } else if k < 0 {
      AtMost(k, d);
    }
  }

  lemma AtLeast(k: int, d: int)
    requires k > 0 && d >= 0
    ensures k * d >= d
  {
    NotNegative(k - 1, d);
    assert (k - 1) * d == k * d - d;
  }

  lemma AtMost(k: int, d: int)
    requires k < 0 && d >= 0
    ensures k * d <= -d
  {
    AtLeast(-k, d);
    assert (-k) * d == -(k * d);
  }

  lemma ModTimes(a: int, b: int, m: int)
    requires m > 0
    ensures ((a % m) * b) % m == (a * b) % m
  {
    var q := a / m;
    assert a * b == (a % m) * b + (q * b) * m;
    ModPlus((a % m) * b, q * b, m);
  }

  lemma ModPlus(a: int, k: int, m: int)
    requires m > 0
    ensures (a + k * m) % m == a % m
  {
    var q, r := a / m, a % m;
    assert a + k * m == (q + k) * m + r;
    DivUnique(a + k * m, m, q + k, r);
  }

  lemma ModTimesTwice(a: int, b: int, c: int, m: int)
    requires m > 0
    ensures ((a * b) % m * c) % m == (a * (b * c)) % m
  {
    ModTimes(a * b, c, m);
    assert a * b * c == a * (b * c);
  }

  lemma SmallLeftNum(x: bv64)
    ensures Num(Left(x, 0)) == (Num(x) * Pow2(Amount(0))) % TWO_64
    ensures Num(Left(x, 1)) == (Num(x) * Pow2(Amount(1))) % TWO_64
  {
    hide Num, Amount, Left, Add64;
    SmallShifts(x);
    NumBelow(x);
    AddNum(x, x);
  }

  /** A shift to the left multiplies, modulo 2^64. */
  lemma {:induction false} LeftNum(x: bv64, n: bv7)
    requires n <= 64
    ensures Num(Left(x, n)) == (Num(x) * Pow2(Amount(n))) % TWO_64
    decreases Amount(n)
  {
    hide Num, Amount, Left, Top, Beside;
    SmallAmount(n);
    if n <= 1 {
      SmallLeftNum(x);
    } else {
      TopAmount(n);
      InSteps(x, n);
      var a, p, q := Num(x), Pow2(Amount(Beside(n))), Pow2(Amount(Top(n)));
      LeftNum(x, Beside(n));
      LeftNum(Left(x, Beside(n)), Top(n));
      Pow2Adds(Amount(Beside(n)), Amount(Top(n)));
      ModTimesTwice(a, p, q, TWO_64);
    }
  }
}
