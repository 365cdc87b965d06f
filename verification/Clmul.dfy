/** Products of polynomials over GF(2), and the 64x64->128 product that is put together from eight
    vector products of bytes. */
module Clmul {
  import opened Words

  type Vector = bv128

  function Xor128(x: Vector, y: Vector): Vector { x ^ y }
  function Xor16(x: bv16, y: bv16): bv16 { x ^ y }

  // ---- The reference: shift and add, without carries ----

  function Term(a: bv64, b: Vector): Vector { if a & 1 == 1 then b else 0 }
  function Half(a: bv64): bv64 { a >> 1 }
  function Double(b: Vector): Vector { b << 1 }

  /** The product of b with the polynomial whose coefficients are the lowest n bits of a. */
  function Bits(a: bv64, b: Vector, n: nat): Vector
    decreases n
  {
    if n == 0 then 0 else Xor128(Term(a, b), Bits(Half(a), Double(b), n - 1))
  }

  function Widen(b: bv64): Vector { b as bv128 }

  function Product(a: bv64, b: bv64): Vector { Bits(a, Widen(b), 64) }

  // ---- Laws of the reference ----

  lemma XorDefinition(x: Vector, y: Vector)
    ensures Xor128(x, y) == x ^ y
  {
  }

  lemma XorFlatLeft(x: Vector, y: Vector, z: Vector)
    ensures Xor128(x ^ y, z) == x ^ y ^ z
  {
  }

  lemma XorFlatRight(x: Vector, y: Vector, z: Vector)
    ensures Xor128(x, y ^ z) == x ^ y ^ z
  {
  }

  lemma XorAssociates(x: Vector, y: Vector, z: Vector)
    ensures Xor128(Xor128(x, y), z) == Xor128(x, Xor128(y, z))
  {
    hide Xor128;
    XorDefinition(x, y);
    XorDefinition(y, z);
    XorFlatLeft(x, y, z);
    XorFlatRight(x, y, z);
  }

  lemma XorSwaps(x: Vector, y: Vector)
    ensures Xor128(x, y) == Xor128(y, x)
  {
  }

  lemma XorExchange(a: Vector, b: Vector, c: Vector, d: Vector)
    ensures Xor128(Xor128(a, b), Xor128(c, d)) == Xor128(Xor128(a, c), Xor128(b, d))
  {
    hide Xor128;
    XorAssociates(a, b, Xor128(c, d));
    XorAssociates(b, c, d);
    XorSwaps(b, c);
    XorAssociates(c, b, d);
    XorAssociates(a, c, Xor128(b, d));
  }

  lemma TermLinear(a: bv64, b: Vector, c: Vector)
    ensures Term(a, Xor128(b, c)) == Xor128(Term(a, b), Term(a, c))
  {
    if a & 1 == 1 {
    } else {
      assert Xor128(0, 0) == 0;
    }
  }

  lemma DoubleLinear(b: Vector, c: Vector)
    ensures Double(Xor128(b, c)) == Xor128(Double(b), Double(c))
  {
  }

  /** The product distributes over sums. */
  lemma {:induction false} BitsLinear(a: bv64, b: Vector, c: Vector, n: nat)
    ensures Bits(a, Xor128(b, c), n) == Xor128(Bits(a, b, n), Bits(a, c, n))
    decreases n
  {
    hide Xor128, Term, Half, Double;
    if n == 0 {
      XorZero(0);
    } else {
      TermLinear(a, b, c);
      DoubleLinear(b, c);
      BitsLinear(Half(a), Double(b), Double(c), n - 1);
      XorExchange(Term(a, b), Term(a, c), Bits(Half(a), Double(b), n - 1), Bits(Half(a), Double(c), n - 1));
    }
  }

  lemma XorZero(x: Vector)
    ensures Xor128(x, 0) == x && Xor128(0, x) == x
  {
  }

  function Shift8(b: Vector): Vector { b << 8 }

  lemma TermShifted(a: bv64, b: Vector)
    ensures Term(a, Shift8(b)) == Shift8(Term(a, b))
  {
  }

  lemma DoubleLiteral(b: Vector)
    ensures Double(b << 8) == b << 9 == Shift8(b << 1)
  {
  }

  lemma ShiftDefinitions(b: Vector)
    ensures Double(b) == b << 1 && Shift8(b) == b << 8
  {
  }

  lemma DoubleShifted(b: Vector)
    ensures Double(Shift8(b)) == Shift8(Double(b))
  {
    hide Double, Shift8;
    ShiftDefinitions(b);
    DoubleLiteral(b);
  }

  lemma Shift8Linear(b: Vector, c: Vector)
    ensures Shift8(Xor128(b, c)) == Xor128(Shift8(b), Shift8(c))
  {
  }

  /** Multiplying by x^8 first or last is the same. */
  lemma {:induction false} BitsShifted(a: bv64, b: Vector, n: nat)
    ensures Bits(a, Shift8(b), n) == Shift8(Bits(a, b, n))
    decreases n
  {
    hide Xor128, Term, Half, Double, Shift8;
    if n == 0 {
      ShiftZero();
    } else {
      TermShifted(a, b);
      DoubleShifted(b);
      BitsShifted(Half(a), Double(b), n - 1);
      Shift8Linear(Term(a, b), Bits(Half(a), Double(b), n - 1));
    }
  }

  lemma ShiftZero()
    ensures Shift8(0) == 0
  {
  }

  // ---- A byte at a time ----

  function Gate(x: Byte, mask: Byte, b: Vector): Vector { if x & mask != 0 then b else 0 }

  /** The product with a byte, written out. */
  function ByteTimes(x: Byte, b: Vector): Vector {
    Xor128(Gate(x, 0x01, b), Xor128(Gate(x, 0x02, b << 1), Xor128(Gate(x, 0x04, b << 2), Xor128(Gate(x, 0x08, b << 3),
    Xor128(Gate(x, 0x10, b << 4), Xor128(Gate(x, 0x20, b << 5), Xor128(Gate(x, 0x40, b << 6), Gate(x, 0x80, b << 7))))))))
  }

  function LowByte(a: bv64): Byte { (a & 0xFF) as Byte }
  function NextBytes(a: bv64): bv64 { a >> 8 }

  lemma Halves(a: bv64)
    ensures Half(a) == a >> 1
    ensures Half(a >> 1) == a >> 2
    ensures Half(a >> 2) == a >> 3
    ensures Half(a >> 3) == a >> 4
    ensures Half(a >> 4) == a >> 5
    ensures Half(a >> 5) == a >> 6
    ensures Half(a >> 6) == a >> 7
    ensures Half(a >> 7) == a >> 8
  {
  }

  lemma Doubles(b: Vector)
    ensures Double(b) == b << 1
    ensures Double(b << 1) == b << 2
    ensures Double(b << 2) == b << 3
    ensures Double(b << 3) == b << 4
    ensures Double(b << 4) == b << 5
    ensures Double(b << 5) == b << 6
    ensures Double(b << 6) == b << 7
    ensures Double(b << 7) == b << 8
  {
  }

  lemma Terms(a: bv64, b: Vector)
    ensures Term(a, b) == Gate(LowByte(a), 0x01, b)
    ensures Term(a >> 1, b << 1) == Gate(LowByte(a), 0x02, b << 1)
    ensures Term(a >> 2, b << 2) == Gate(LowByte(a), 0x04, b << 2)
    ensures Term(a >> 3, b << 3) == Gate(LowByte(a), 0x08, b << 3)
    ensures Term(a >> 4, b << 4) == Gate(LowByte(a), 0x10, b << 4)
    ensures Term(a >> 5, b << 5) == Gate(LowByte(a), 0x20, b << 5)
    ensures Term(a >> 6, b << 6) == Gate(LowByte(a), 0x40, b << 6)
    ensures Term(a >> 7, b << 7) == Gate(LowByte(a), 0x80, b << 7)
  {
  }

  lemma Peel(a: bv64, b: Vector, n: nat)
    ensures Bits(a, b, n + 1) == Xor128(Term(a, b), Bits(Half(a), Double(b), n))
  {
  }

  /** Eight steps of the reference are the product with one byte. */
  lemma PeelByte(a: bv64, b: Vector, n: nat)
    ensures Bits(a, b, n + 8) == Xor128(ByteTimes(LowByte(a), b), Bits(NextBytes(a), Shift8(b), n))
  {
    hide Xor128, Term, Half, Double, Bits, LowByte, Gate;
    Halves(a);
    Doubles(b);
    Terms(a, b);
    Peel(a, b, n + 7);
    Peel(a >> 1, b << 1, n + 6);
    Peel(a >> 2, b << 2, n + 5);
    Peel(a >> 3, b << 3, n + 4);
    Peel(a >> 4, b << 4, n + 3);
    Peel(a >> 5, b << 5, n + 2);
    Peel(a >> 6, b << 6, n + 1);
    Peel(a >> 7, b << 7, n + 0);
    var r := Bits(a >> 8, b << 8, n);
    var t0 := Term(a, b);
    var t1 := Term(a >> 1, b << 1);
    var t2 := Term(a >> 2, b << 2);
    var t3 := Term(a >> 3, b << 3);
    var t4 := Term(a >> 4, b << 4);
    var t5 := Term(a >> 5, b << 5);
    var t6 := Term(a >> 6, b << 6);
    var t7 := Term(a >> 7, b << 7);
    var s7 := t7;
    var s6 := Xor128(t6, s7);
    var s5 := Xor128(t5, s6);
    var s4 := Xor128(t4, s5);
    var s3 := Xor128(t3, s4);
    var s2 := Xor128(t2, s3);
    var s1 := Xor128(t1, s2);
    var s0 := Xor128(t0, s1);
    XorAssociates(t6, s7, r);
    XorAssociates(t5, s6, r);
    XorAssociates(t4, s5, r);
    XorAssociates(t3, s4, r);
    XorAssociates(t2, s3, r);
    XorAssociates(t1, s2, r);
    XorAssociates(t0, s1, r);
  }

  function WideByte(x: Byte): bv64 { x as bv64 }
  function WideWord(w: bv16): Vector { w as bv128 }
  function ByteVector(y: Byte): Vector { y as bv128 }

  lemma LowByteOfWide(x: Byte)
    ensures LowByte(WideByte(x)) == x
  {
  }

  lemma ByteTimesIsBits(x: Byte, b: Vector)
    ensures ByteTimes(x, b) == Bits(WideByte(x), b, 8)
  {
    hide Xor128, ByteTimes, LowByte, WideByte, NextBytes;
    PeelByte(WideByte(x), b, 0);
    LowByteOfWide(x);
    XorZero(ByteTimes(x, b));
  }

  lemma ByteTimesLaws(x: Byte, b: Vector, c: Vector)
    ensures ByteTimes(x, Xor128(b, c)) == Xor128(ByteTimes(x, b), ByteTimes(x, c))
    ensures ByteTimes(x, Shift8(b)) == Shift8(ByteTimes(x, b))
  {
    hide Xor128, ByteTimes, WideByte, Shift8;
    ByteTimesIsBits(x, b);
    ByteTimesIsBits(x, c);
    ByteTimesIsBits(x, Xor128(b, c));
    ByteTimesIsBits(x, Shift8(b));
    BitsLinear(WideByte(x), b, c, 8);
    BitsShifted(WideByte(x), b, 8);
  }

  function Gate16(x: Byte, mask: Byte, w: bv16): bv16 { if x & mask != 0 then w else 0 }

  /** One lane of vmull_p8: the 15-bit product of two bytes. */
  function Pmull8(x: Byte, y: Byte): bv16 {
    var w := y as bv16;
    Xor16(Gate16(x, 0x01, w), Xor16(Gate16(x, 0x02, w << 1), Xor16(Gate16(x, 0x04, w << 2), Xor16(Gate16(x, 0x08, w << 3),
    Xor16(Gate16(x, 0x10, w << 4), Xor16(Gate16(x, 0x20, w << 5), Xor16(Gate16(x, 0x40, w << 6), Gate16(x, 0x80, w << 7))))))))
  }

  lemma WideXor(x: bv16, y: bv16)
    ensures WideWord(Xor16(x, y)) == Xor128(WideWord(x), WideWord(y))
  {
  }

  lemma WideShifts(y: Byte)
    ensures WideWord((y as bv16)) == y as bv128
    ensures WideWord((y as bv16) << 1) == (y as bv128) << 1
    ensures WideWord((y as bv16) << 2) == (y as bv128) << 2
    ensures WideWord((y as bv16) << 3) == (y as bv128) << 3
    ensures WideWord((y as bv16) << 4) == (y as bv128) << 4
    ensures WideWord((y as bv16) << 5) == (y as bv128) << 5
    ensures WideWord((y as bv16) << 6) == (y as bv128) << 6
    ensures WideWord((y as bv16) << 7) == (y as bv128) << 7
  {
  }

  lemma WideGate(x: Byte, mask: Byte, w: bv16)
    ensures WideWord(Gate16(x, mask, w)) == Gate(x, mask, WideWord(w))
  {
  }

  lemma Pmull8Fits(x: Byte, y: Byte)
    ensures ByteTimes(x, ByteVector(y)) == WideWord(Pmull8(x, y))
  {
    hide Xor128, Xor16, WideWord, Gate16, Gate;
    var w := y as bv16;
    WideShifts(y);
    WideGate(x, 0x01, w);
    WideGate(x, 0x02, w << 1);
    WideGate(x, 0x04, w << 2);
    WideGate(x, 0x08, w << 3);
    WideGate(x, 0x10, w << 4);
    WideGate(x, 0x20, w << 5);
    WideGate(x, 0x40, w << 6);
    WideGate(x, 0x80, w << 7);
    var t7 := Gate16(x, 0x80, w << 7);
    var g6 := Gate16(x, 0x40, w << 6);
    WideXor(g6, t7);
    var t6 := Xor16(g6, t7);
    var g5 := Gate16(x, 0x20, w << 5);
    WideXor(g5, t6);
    var t5 := Xor16(g5, t6);
    var g4 := Gate16(x, 0x10, w << 4);
    WideXor(g4, t5);
    var t4 := Xor16(g4, t5);
    var g3 := Gate16(x, 0x08, w << 3);
    WideXor(g3, t4);
    var t3 := Xor16(g3, t4);
    var g2 := Gate16(x, 0x04, w << 2);
    WideXor(g2, t3);
    var t2 := Xor16(g2, t3);
    var g1 := Gate16(x, 0x02, w << 1);
    WideXor(g1, t2);
    var t1 := Xor16(g1, t2);
    var g0 := Gate16(x, 0x01, w);
    WideXor(g0, t1);
    var t0 := Xor16(g0, t1);
  }

  // ---- Sums of shifted words ----

  /** The sum of the words, each a byte further up than the one before. */
  function Value(s: seq<bv16>): Vector
    decreases |s|
  {
    if s == [] then 0 else Xor128(WideWord(s[0]), Shift8(Value(s[1..])))
  }

  function At(s: seq<bv16>, k: int): bv16 {
    if 0 <= k < |s| then s[k] else 0
  }

  function Add(s: seq<bv16>, t: seq<bv16>): seq<bv16> {
    seq(if |s| < |t| then |t| else |s|, k requires k >= 0 => Xor16(At(s, k), At(t, k)))
  }

  lemma Xor16Zero(x: bv16)
    ensures Xor16(x, 0) == x == Xor16(0, x)
  {
  }

  lemma AddEmpty(s: seq<bv16>)
    ensures Add(s, []) == s && Add([], s) == s
  {
    hide Xor16;
    forall k | 0 <= k < |s| ensures Add(s, [])[k] == s[k] && Add([], s)[k] == s[k] {
      Xor16Zero(s[k]);
    }
  }

  /** Adding word by word adds the values. */
  lemma {:induction false} ValueAdd(s: seq<bv16>, t: seq<bv16>)
    ensures Value(Add(s, t)) == Xor128(Value(s), Value(t))
    decreases |s|
  {
    hide Xor16, Xor128, WideWord, Shift8;
    if s == [] {
      AddEmpty(t);
      XorZero(Value(t));
    } else if t == [] {
      AddEmpty(s);
      XorZero(Value(s));
    } else {
      assert Add(s, t)[1..] == Add(s[1..], t[1..]);
      ValueAdd(s[1..], t[1..]);
      WideXor(s[0], t[0]);
      Shift8Linear(Value(s[1..]), Value(t[1..]));
      XorExchange(WideWord(s[0]), WideWord(t[0]), Shift8(Value(s[1..])), Shift8(Value(t[1..])));
    }
  }

  lemma ValueUp(s: seq<bv16>)
    ensures Value([0] + s) == Shift8(Value(s))
  {
    hide Xor128, Shift8;
    assert ([0] + s)[1..] == s;
    ZeroWord();
    XorZero(Shift8(Value(s)));
  }

  lemma ZeroWord()
    ensures WideWord(0) == 0
  {
  }

  // ---- The product as a convolution of bytes ----

  /** Byte j of a word, the lowest first. */
  function ByteAt(b: bv64, j: nat): Byte
    requires j < 8
  {
    match j
    case 0 => (b & 0xFF) as Byte
    case 1 => ((b >> 8) & 0xFF) as Byte
    case 2 => ((b >> 16) & 0xFF) as Byte
    case 3 => ((b >> 24) & 0xFF) as Byte
    case 4 => ((b >> 32) & 0xFF) as Byte
    case 5 => ((b >> 40) & 0xFF) as Byte
    case 6 => ((b >> 48) & 0xFF) as Byte
    case _ => ((b >> 56) & 0xFF) as Byte
  }

  lemma ByteAtShifted(b: bv64)
    ensures ByteAt(b >> 8, 0) == ByteAt(b, 1) && ByteAt(b >> 8, 1) == ByteAt(b, 2) && ByteAt(b >> 8, 2) == ByteAt(b, 3)
    ensures ByteAt(b >> 8, 3) == ByteAt(b, 4) && ByteAt(b >> 8, 4) == ByteAt(b, 5)
    ensures ByteAt(b >> 8, 5) == ByteAt(b, 6) && ByteAt(b >> 8, 6) == ByteAt(b, 7)
  {
  }

  lemma ByteAtNext(b: bv64, j: nat)
    requires j < 7
    ensures ByteAt(NextBytes(b), j) == ByteAt(b, j + 1)
  {
    hide ByteAt;
    ByteAtShifted(b);
  }

  lemma ByteAtStart(b: bv64)
    ensures ByteAt(b, 0) == LowByte(b)
  {
  }

  function BytesOf(b: bv64, n: nat): seq<Byte>
    decreases n
  {
    if n == 0 then [] else [LowByte(b)] + BytesOf(NextBytes(b), n - 1)
  }

  lemma {:induction false} BytesOfAt(b: bv64, n: nat, j: nat)
    requires j < n <= 8
    ensures |BytesOf(b, n)| == n && BytesOf(b, n)[j] == ByteAt(b, j)
    decreases n
  {
    hide LowByte, NextBytes, ByteAt;
    if j > 0 {
      BytesOfAt(NextBytes(b), n - 1, j - 1);
      ByteAtNext(b, j - 1);
    } else {
      ByteAtStart(b);
      if n > 1 { BytesOfAt(NextBytes(b), n - 1, 0); }
    }
  }

  function FromBytes(s: seq<Byte>): Vector
    decreases |s|
  {
    if s == [] then 0 else Xor128(ByteVector(s[0]), Shift8(FromBytes(s[1..])))
  }

  function Row(x: Byte, s: seq<Byte>): seq<bv16> {
    seq(|s|, j requires 0 <= j < |s| => Pmull8(x, s[j]))
  }

  lemma {:induction false} RowValue(x: Byte, s: seq<Byte>)
    ensures ByteTimes(x, FromBytes(s)) == Value(Row(x, s))
    decreases |s|
  {
    hide Xor128, ByteTimes, ByteVector, WideWord, Shift8, Pmull8;
    if s == [] {
      ByteTimesZero(x);
    } else {
      ByteTimesLaws(x, ByteVector(s[0]), Shift8(FromBytes(s[1..])));
      ByteTimesLaws(x, FromBytes(s[1..]), 0);
      Pmull8Fits(x, s[0]);
      RowValue(x, s[1..]);
      assert Row(x, s)[1..] == Row(x, s[1..]);
    }
  }

  lemma ByteTimesZero(x: Byte)
    ensures ByteTimes(x, 0) == 0
  {
  }

  lemma WidenSplits(b: bv64)
    ensures Widen(b) == Xor128(ByteVector(LowByte(b)), Shift8(Widen(NextBytes(b))))
  {
  }

  lemma NothingLeft(b: bv64)
    ensures NextBytes(NextBytes(NextBytes(NextBytes(NextBytes(NextBytes(NextBytes(NextBytes(b)))))))) == 0
  {
    hide NextBytes;
    NextLiterals(b);
  }

  lemma NextLiterals(b: bv64)
    ensures NextBytes(b) == b >> 8 && NextBytes(b >> 8) == b >> 16 && NextBytes(b >> 16) == b >> 24
    ensures NextBytes(b >> 24) == b >> 32 && NextBytes(b >> 32) == b >> 40 && NextBytes(b >> 40) == b >> 48
    ensures NextBytes(b >> 48) == b >> 56 && NextBytes(b >> 56) == 0
  {
  }

  /** The bytes that n steps leave. */
  function Skip(b: bv64, n: nat): bv64
    decreases n
  {
    if n == 0 then b else Skip(NextBytes(b), n - 1)
  }

  /** A word whose bytes run out after n is the sum of those n. */
  lemma {:induction false} WidenIsBytes(b: bv64, n: nat)
    requires Skip(b, n) == 0
    ensures Widen(b) == FromBytes(BytesOf(b, n))
    decreases n
  {
    hide Widen, LowByte, NextBytes, ByteVector, Shift8, Xor128;
    if n == 0 {
      WidenZero();
    } else {
      WidenSplits(b);
      WidenIsBytes(NextBytes(b), n - 1);
      assert BytesOf(b, n)[1..] == BytesOf(NextBytes(b), n - 1);
    }
  }

  lemma WidenZero()
    ensures Widen(0) == 0
  {
  }

  lemma EightBytes(b: bv64)
    ensures Widen(b) == FromBytes(BytesOf(b, 8))
  {
    hide Widen, NextBytes, FromBytes, BytesOf;
    NothingLeft(b);
    var b4 := NextBytes(NextBytes(NextBytes(NextBytes(b))));
    assert Skip(b, 8) == Skip(b4, 4);
    WidenIsBytes(b, 8);
  }

  /** The products of all pairs of bytes, added up by where they belong. */
  function Convolution(a: bv64, b: bv64, n: nat): seq<bv16>
    decreases n
  {
    if n == 0 then [] else Add(Row(LowByte(a), BytesOf(b, 8)), [0] + Convolution(NextBytes(a), b, n - 1))
  }

  lemma {:induction false} BitsAreConvolution(a: bv64, b: bv64, n: nat)
    ensures Bits(a, Widen(b), 8 * n) == Value(Convolution(a, b, n))
    decreases n
  {
    hide Widen, LowByte, NextBytes, ByteTimes, Shift8, Xor128, Row, BytesOf, Add;
    if n > 0 {
      PeelByte(a, Widen(b), 8 * (n - 1));
      BitsShifted(NextBytes(a), Widen(b), 8 * (n - 1));
      BitsAreConvolution(NextBytes(a), b, n - 1);
      EightBytes(b);
      RowValue(LowByte(a), BytesOf(b, 8));
      ValueUp(Convolution(NextBytes(a), b, n - 1));
      ValueAdd(Row(LowByte(a), BytesOf(b, 8)), [0] + Convolution(NextBytes(a), b, n - 1));
    }
  }

  /** A product of two bytes, or zero past the end. */
  function Pair(a: bv64, b: bv64, i: nat, j: int): bv16
    requires i < 8
  {
    if 0 <= j < 8 then Pmull8(ByteAt(a, i), ByteAt(b, j)) else 0
  }

  /** The sum of the pairs from byte i of a on whose places add up to k. */
  function Diagonal(a: bv64, b: bv64, i: nat, k: int): bv16
    requires i <= 8
    decreases 8 - i
  {
    if i == 8 then 0 else Xor16(Pair(a, b, i, k - i), Diagonal(a, b, i + 1, k))
  }

  lemma {:induction false} SkipOne(a: bv64, i: nat)
    requires i < 8
    ensures LowByte(Skip(a, i)) == ByteAt(a, i) && NextBytes(Skip(a, i)) == Skip(a, i + 1)
    decreases i
  {
    hide LowByte, NextBytes, ByteAt;
    if i == 0 {
      ByteAtStart(a);
      assert Skip(a, 1) == Skip(NextBytes(a), 0);
    } else {
      SkipOne(NextBytes(a), i - 1);
      ByteAtNext(a, i - 1);
    }
  }

  lemma ConvolutionStep(w: bv64, b: bv64, n: nat, k: int)
    requires 0 < n <= 8
    requires |Convolution(NextBytes(w), b, n - 1)| == if n == 1 then 0 else n + 6
    ensures |Convolution(w, b, n)| == n + 7
    ensures At(Convolution(w, b, n), k)
            == Xor16(if 0 <= k < 8 then Pmull8(LowByte(w), ByteAt(b, k)) else 0, At(Convolution(NextBytes(w), b, n - 1), k - 1))
  {
    hide LowByte, NextBytes, Pmull8, Xor16, ByteAt, BytesOf;
    var row, rest := Row(LowByte(w), BytesOf(b, 8)), Convolution(NextBytes(w), b, n - 1);
    BytesOfAt(b, 8, 0);
    assert At([0] + rest, k) == At(rest, k - 1);
    if 0 <= k < 8 {
      BytesOfAt(b, 8, k);
    }
    Xor16Zero(0);
  }

  /** Every word of the convolution is the sum of one diagonal. */
  lemma {:induction false} ConvolutionAt(a: bv64, b: bv64, i: nat, k: int)
    requires i <= 8
    ensures |Convolution(Skip(a, i), b, 8 - i)| == if i == 8 then 0 else 15 - i
    ensures At(Convolution(Skip(a, i), b, 8 - i), k - i) == Diagonal(a, b, i, k)
    decreases 8 - i
  {
    hide LowByte, NextBytes, Pmull8, Xor16, ByteAt, Skip, Convolution, At, Diagonal;
    if i < 8 {
      SkipOne(a, i);
      ConvolutionAt(a, b, i + 1, k);
      ConvolutionStep(Skip(a, i), b, 8 - i, k - i);
      DiagonalStep(a, b, i, k);
    } else {
      ConvolutionEnd(a, b, k);
    }
  }

  lemma DiagonalStep(a: bv64, b: bv64, i: nat, k: int)
    requires i < 8
    ensures Diagonal(a, b, i, k) == Xor16(if 0 <= k - i < 8 then Pmull8(ByteAt(a, i), ByteAt(b, k - i)) else 0, Diagonal(a, b, i + 1, k))
  {
    hide Pmull8, Xor16, ByteAt;
  }

  lemma ConvolutionEnd(a: bv64, b: bv64, k: int)
    ensures Convolution(Skip(a, 8), b, 0) == [] && At(Convolution(Skip(a, 8), b, 0), k - 8) == Diagonal(a, b, 8, k)
  {
    hide Skip;
  }

  lemma ConvolutionWord(a: bv64, b: bv64, k: nat)
    requires k < 15
    ensures |Convolution(a, b, 8)| == 15 && Convolution(a, b, 8)[k] == Diagonal(a, b, 0, k)
  {
    hide Convolution, Diagonal;
    assert Skip(a, 0) == a;
    ConvolutionAt(a, b, 0, k);
  }

  /** The product, word by word: each word sums the products of the bytes whose places add up to its own. */
  lemma ProductIsDiagonals(a: bv64, b: bv64)
    ensures Product(a, b) == Value(seq(15, k requires 0 <= k < 15 => Diagonal(a, b, 0, k)))
  {
    hide Bits, Widen, Value, Diagonal, Convolution;
    BitsAreConvolution(a, b, 8);
    var c := Convolution(a, b, 8);
    ConvolutionWord(a, b, 0);
    forall k | 0 <= k < 15 ensures c[k] == Diagonal(a, b, 0, k) {
      ConvolutionWord(a, b, k);
    }
    assert c == seq(15, k requires 0 <= k < 15 => Diagonal(a, b, 0, k));
  }
}
