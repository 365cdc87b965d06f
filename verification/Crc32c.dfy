/** CRC-32C: the half-byte table and the Barrett reduction against division a bit at a time. */
module Crc32c {
  import opened Clmul
  import opened Mixing
  import opened Words
  import ClmulPolyfill

  // ---- The reference: bit-serial division, lowest bit of every byte first ----

  /** One step of the division register; the generator of section 12.1 of RFC 3720, reflected. */
  function Step(crc: bv32): bv32 {
    if crc & 1 == 1 then (crc >> 1) ^ 0x82F63B78 else crc >> 1
  }

  lemma StepDefinition(crc: bv32)
    ensures Step(crc) == if crc & 1 == 1 then Xor32(crc >> 1, 0x82F63B78) else crc >> 1
  {
  }

  function FeedBit(crc: bv32, bit: bool): bv32 {
    Step(crc ^ (if bit then 1 else 0))
  }

  lemma FeedDefinition(crc: bv32, bit: bool)
    ensures FeedBit(crc, bit) == Step(Xor32(crc, if bit then 1 else 0))
  {
    hide Step;
  }

  function Serial(crc: bv32, bits: seq<bool>): bv32
    decreases |bits|
  {
    if bits == [] then crc else Serial(FeedBit(crc, bits[0]), bits[1..])
  }

  function ByteBits(v: Byte): (bits: seq<bool>)
    ensures |bits| == 8
  {
    [v & 1 != 0, v & 2 != 0, v & 4 != 0, v & 8 != 0, v & 16 != 0, v & 32 != 0, v & 64 != 0, v & 128 != 0]
  }

  function BitsOf(data: Bytes): seq<bool>
    decreases |data|
  {
    if data == [] then [] else ByteBits(data[0]) + BitsOf(data[1..])
  }

  lemma {:induction false} SerialConcat(crc: bv32, s: seq<bool>, t: seq<bool>)
    ensures Serial(crc, s + t) == Serial(Serial(crc, s), t)
    decreases |s|
  {
    hide FeedBit;
    if s == [] {
      assert s + t == t;
    } else {
      assert (s + t)[1..] == s[1..] + t;
      SerialConcat(FeedBit(crc, s[0]), s[1..], t);
    }
  }

  lemma {:induction false} BitsConcat(s: Bytes, t: Bytes)
    ensures BitsOf(s + t) == BitsOf(s) + BitsOf(t)
    decreases |s|
  {
    hide ByteBits;
    if s == [] {
      assert s + t == t;
    } else {
      assert (s + t)[1..] == s[1..] + t;
      BitsConcat(s[1..], t);
    }
  }

  // ---- A byte of it ----

  function Step2(crc: bv32): bv32 { Step(Step(crc)) }
  function Step4(crc: bv32): bv32 { Step2(Step2(crc)) }
  function Step8(crc: bv32): bv32 { Step4(Step4(crc)) }

  function Wide(v: Byte): bv32 { v as bv32 }

  lemma StepBoth(x: bv32, y: bv32)
    requires x & 1 == 1 && y & 1 == 1
    ensures Step(x ^ y) == Step(x) ^ Step(y)
  {
  }

  lemma StepOne(x: bv32, y: bv32)
    requires x & 1 == 1 && y & 1 != 1
    ensures Step(x ^ y) == Step(x) ^ Step(y)
  {
  }

  lemma StepNone(x: bv32, y: bv32)
    requires x & 1 != 1 && y & 1 != 1
    ensures Step(x ^ y) == Step(x) ^ Step(y)
  {
  }

  lemma StepLinear(x: bv32, y: bv32)
    ensures Step(Xor32(x, y)) == Xor32(Step(x), Step(y))
  {
    hide Step;
    if x & 1 == 1 {
      if y & 1 == 1 { StepBoth(x, y); } else { StepOne(x, y); }
    } else {
      if y & 1 == 1 { StepOne(y, x); } else { StepNone(x, y); }
    }
  }

  lemma Step4Linear(x: bv32, y: bv32)
    ensures Step4(Xor32(x, y)) == Xor32(Step4(x), Step4(y))
  {
    hide Step, Xor32;
    StepLinear(x, y);
    StepLinear(Step(x), Step(y));
    StepLinear(Step2(x), Step2(y));
    StepLinear(Step(Step2(x)), Step(Step2(y)));
  }

  function Upper28(crc: bv32): bv32 { crc & 0xFFFFFFF0 }
  function Lower4(crc: bv32): bv32 { crc & 0x0F }
  function ShiftRight4(crc: bv32): bv32 { crc >> 4 }

  lemma Split4(crc: bv32)
    ensures Xor32(Upper28(crc), Lower4(crc)) == crc
  {
  }

  lemma Step4Upper(crc: bv32)
    ensures Step4(Upper28(crc)) == ShiftRight4(crc)
  {
  }

  /** The look-up table of every sixteenth entry of the standard one. */
  function HalfByteTable(i: bv32): bv32
    requires i < 16
  {
    if i < 4 then (if i < 2 then (if i == 0 then 0x00000000 else 0x105ec76f) else (if i == 2 then 0x20bd8ede else 0x30e349b1))
    else if i < 8 then (if i < 6 then (if i == 4 then 0x417b1dbc else 0x5125dad3) else (if i == 6 then 0x61c69362 else 0x7198540d))
    else if i < 12 then (if i < 10 then (if i == 8 then 0x82f63b78 else 0x92a8fc17) else (if i == 10 then 0xa24bb5a6 else 0xb21572c9))
    else (if i < 14 then (if i == 12 then 0xc38d26c4 else 0xd3d3e1ab) else (if i == 14 then 0xe330a81a else 0xf36e6f75))
  }

  lemma Step4Lower(i: bv32)
    requires i < 16
    ensures Step4(i) == HalfByteTable(i)
  {
  }

  lemma Lower4Small(crc: bv32)
    ensures Lower4(crc) < 16
  {
  }

  /** Each half-byte look-up is four steps of the division. */
  lemma HalfByteIsFourSteps(crc: bv32)
    ensures Lower4(crc) < 16 && Xor32(ShiftRight4(crc), HalfByteTable(Lower4(crc))) == Step4(crc)
  {
    hide Xor32, Step4, HalfByteTable, Lower4, Upper28, ShiftRight4;
    Lower4Small(crc);
    Split4(crc);
    Step4Linear(Upper28(crc), Lower4(crc));
    Step4Upper(crc);
    Step4Lower(Lower4(crc));
  }

  // ---- The bits of a byte, fed one by one or all at once ----

  function ShiftRight1(x: bv32): bv32 { x >> 1 }
  function Bit0(v: bv32): bv32 { v & 1 }
  function Rest1(v: bv32): bv32 { v & 0xFFFFFFFE }

  lemma StepRest(v: bv32)
    ensures Step(Rest1(v)) == ShiftRight1(v) && Xor32(Bit0(v), Rest1(v)) == v
  {
  }

  lemma XorAssociative(x: bv32, y: bv32, z: bv32)
    ensures Xor32(Xor32(x, y), z) == Xor32(x, Xor32(y, z))
  {
  }

  /** Only the lowest bit of what is still to come feeds back: the rest just moves down. */
  lemma StepAhead(crc: bv32, v: bv32)
    ensures Step(Xor32(crc, v)) == Xor32(Step(Xor32(crc, Bit0(v))), ShiftRight1(v))
  {
    hide Step, Xor32, Bit0, Rest1, ShiftRight1;
    StepRest(v);
    XorAssociative(crc, Bit0(v), Rest1(v));
    StepLinear(Xor32(crc, Bit0(v)), Rest1(v));
  }

  /** The value of the first eight bits fed one by one, in the form of the register xored with a byte. */
  function BitOfByte(v: Byte, mask: Byte): bv32 { if v & mask != 0 then 1 else 0 }

  lemma WideBits(v: Byte)
    ensures Bit0(Wide(v)) == BitOfByte(v, 1) && Bit0(Wide(v) >> 1) == BitOfByte(v, 2)
    ensures Bit0(Wide(v) >> 2) == BitOfByte(v, 4) && Bit0(Wide(v) >> 3) == BitOfByte(v, 8)
    ensures Bit0(Wide(v) >> 4) == BitOfByte(v, 16) && Bit0(Wide(v) >> 5) == BitOfByte(v, 32)
    ensures Bit0(Wide(v) >> 6) == BitOfByte(v, 64) && Bit0(Wide(v) >> 7) == BitOfByte(v, 128)
  {
  }

  lemma WideShifts(w: bv32)
    ensures ShiftRight1(w) == w >> 1 && ShiftRight1(w >> 1) == w >> 2 && ShiftRight1(w >> 2) == w >> 3
    ensures ShiftRight1(w >> 3) == w >> 4 && ShiftRight1(w >> 4) == w >> 5 && ShiftRight1(w >> 5) == w >> 6
    ensures ShiftRight1(w >> 6) == w >> 7 && ShiftRight1(w >> 7) == w >> 8
  {
  }

  lemma NothingAfter(v: Byte)
    ensures Wide(v) >> 8 == 0
  {
  }

  lemma SerialUp(crc: bv32, bits: seq<bool>, k: nat)
    requires k < |bits|
    ensures Serial(crc, bits[k..]) == Serial(FeedBit(crc, bits[k]), bits[k + 1..])
  {
    hide FeedBit;
    assert bits[k..][1..] == bits[k + 1..];
  }

  function FeedMasked(crc: bv32, v: Byte, mask: Byte): bv32 {
    Step(Xor32(crc, BitOfByte(v, mask)))
  }

  lemma FedBit(crc: bv32, bit: bool, v: Byte, mask: Byte)
    requires bit <==> v & mask != 0
    ensures FeedBit(crc, bit) == FeedMasked(crc, v, mask)
  {
    hide Step;
  }

  lemma FedBits(crc: bv32, v: Byte)
    ensures var bits := ByteBits(v);
            FeedBit(crc, bits[0]) == FeedMasked(crc, v, 1) && FeedBit(crc, bits[1]) == FeedMasked(crc, v, 2)
            && FeedBit(crc, bits[2]) == FeedMasked(crc, v, 4) && FeedBit(crc, bits[3]) == FeedMasked(crc, v, 8)
            && FeedBit(crc, bits[4]) == FeedMasked(crc, v, 16) && FeedBit(crc, bits[5]) == FeedMasked(crc, v, 32)
            && FeedBit(crc, bits[6]) == FeedMasked(crc, v, 64) && FeedBit(crc, bits[7]) == FeedMasked(crc, v, 128)
  {
    hide FeedBit, FeedMasked;
    FedBit(crc, v & 1 != 0, v, 1);
    FedBit(crc, v & 2 != 0, v, 2);
    FedBit(crc, v & 4 != 0, v, 4);
    FedBit(crc, v & 8 != 0, v, 8);
    FedBit(crc, v & 16 != 0, v, 16);
    FedBit(crc, v & 32 != 0, v, 32);
    FedBit(crc, v & 64 != 0, v, 64);
    FedBit(crc, v & 128 != 0, v, 128);
  }

  /** The register after the eight bits of a byte. */
  lemma SerialOfByte(crc: bv32, v: Byte)
    ensures var s1 := FeedMasked(crc, v, 1);
            var s2 := FeedMasked(s1, v, 2);
            var s3 := FeedMasked(s2, v, 4);
            var s4 := FeedMasked(s3, v, 8);
            var s5 := FeedMasked(s4, v, 16);
            var s6 := FeedMasked(s5, v, 32);
            var s7 := FeedMasked(s6, v, 64);
            Serial(crc, ByteBits(v)) == FeedMasked(s7, v, 128)
  {
    hide Step, Serial, FeedBit, FeedMasked, ByteBits;
    var bits := ByteBits(v);
    var s1 := FeedMasked(crc, v, 1);
    var s2 := FeedMasked(s1, v, 2);
    var s3 := FeedMasked(s2, v, 4);
    var s4 := FeedMasked(s3, v, 8);
    var s5 := FeedMasked(s4, v, 16);
    var s6 := FeedMasked(s5, v, 32);
    var s7 := FeedMasked(s6, v, 64);
    assert bits[0..] == bits;
    FedBits(crc, v);
    SerialUp(crc, bits, 0);
    FedBits(s1, v);
    SerialUp(s1, bits, 1);
    FedBits(s2, v);
    SerialUp(s2, bits, 2);
    FedBits(s3, v);
    SerialUp(s3, bits, 3);
    FedBits(s4, v);
    SerialUp(s4, bits, 4);
    FedBits(s5, v);
    SerialUp(s5, bits, 5);
    FedBits(s6, v);
    SerialUp(s6, bits, 6);
    FedBits(s7, v);
    SerialUp(s7, bits, 7);
    assert bits[8..] == [];
    SerialEnd(FeedMasked(s7, v, 128));
  }

  lemma SerialEnd(crc: bv32)
    ensures Serial(crc, []) == crc
  {
  }

  /** Feeding a byte bit by bit is xoring it in whole and taking eight steps. */
  lemma ByteIsEightSteps(crc: bv32, v: Byte)
    ensures Serial(crc, ByteBits(v)) == Step8(Xor32(crc, Wide(v)))
  {
    hide Step, Xor32, Wide, Bit0, BitOfByte, ByteBits, Serial, ShiftRight1;
    SerialOfByte(crc, v);
    WideBits(v);
    WideShifts(Wide(v));
    NothingAfter(v);
    var s1 := FeedMasked(crc, v, 1);
    var s2 := FeedMasked(s1, v, 2);
    var s3 := FeedMasked(s2, v, 4);
    var s4 := FeedMasked(s3, v, 8);
    var s5 := FeedMasked(s4, v, 16);
    var s6 := FeedMasked(s5, v, 32);
    var s7 := FeedMasked(s6, v, 64);
    StepAhead(crc, Wide(v));
    StepAhead(s1, Wide(v) >> 1);
    StepAhead(s2, Wide(v) >> 2);
    StepAhead(s3, Wide(v) >> 3);
    StepAhead(s4, Wide(v) >> 4);
    StepAhead(s5, Wide(v) >> 5);
    StepAhead(s6, Wide(v) >> 6);
    StepAhead(s7, Wide(v) >> 7);
    XorNothing(FeedMasked(s7, v, 128));
  }

  lemma XorNothing(x: bv32)
    ensures Xor32(x, 0) == x && Xor32(0, x) == x && Xor32(x, x) == 0
  {
  }

  // ---- Barrett reduction ----

  const MU: bv64 := 0x1dea713f1
  const GENERATOR: bv64 := 0x105EC76F1

  function Shl24(c: bv32): bv64 { (c as bv64) << 24 }
  function Wide64(c: bv32): bv64 { c as bv64 }
  function Shl16(c: bv32): bv64 { (c as bv64) << 16 }
  function Shl8(c: bv32): bv64 { (c as bv64) << 8 }

  lemma ZeroBytesWritten(c: bv32)
    ensures LowByte((c as bv64) << 24) == 0 && NextBytes((c as bv64) << 24) == (c as bv64) << 16
    ensures LowByte((c as bv64) << 16) == 0 && NextBytes((c as bv64) << 16) == (c as bv64) << 8
    ensures LowByte((c as bv64) << 8) == 0 && NextBytes((c as bv64) << 8) == c as bv64
  {
  }

  lemma ZeroBytes(c: bv32)
    ensures LowByte(Shl24(c)) == 0 && NextBytes(Shl24(c)) == Shl16(c)
    ensures LowByte(Shl16(c)) == 0 && NextBytes(Shl16(c)) == Shl8(c)
    ensures LowByte(Shl8(c)) == 0 && NextBytes(Shl8(c)) == Wide64(c)
  {
    hide LowByte, NextBytes;
    ZeroBytesWritten(c);
  }

  lemma ZeroByteTimes(b: Vector)
    ensures ByteTimes(0, b) == 0
  {
    hide Xor128;
    XorZero(0);
  }

  lemma PeelZeroByte(a: bv64, b: Vector, n: nat)
    requires LowByte(a) == 0
    ensures Bits(a, b, n + 8) == Shift8(Bits(NextBytes(a), b, n))
  {
    hide LowByte, NextBytes, ByteTimes, Shift8, Xor128, Bits;
    PeelByte(a, b, n);
    ZeroByteTimes(b);
    XorZero(Bits(NextBytes(a), Shift8(b), n));
    BitsShifted(NextBytes(a), b, n);
  }

  lemma {:induction false} ZeroTimes(b: Vector, n: nat)
    ensures Bits(0, b, n) == 0
    decreases n
  {
    hide Double, Xor128;
    if n > 0 {
      assert Half(0) == 0 && Term(0, b) == 0;
      ZeroTimes(Double(b), n - 1);
      XorZero(0);
    }
  }

  function Shift24(v: Vector): Vector { Shift8(Shift8(Shift8(v))) }

  /** Three zero bytes below come out as three zero bytes below. */
  lemma ProductOfShifted(c: bv32, b: bv64)
    ensures var w := Widen(b);
            Product(Shl24(c), b) == Shift24(Xor128(ByteTimes(LowByte(Wide64(c)), w), Shift8(Bits(NextBytes(Wide64(c)), w, 32))))
  {
    hide LowByte, NextBytes, ByteTimes, Shift8, Xor128, Bits, Widen, Shl24, Shl16, Shl8, Wide64;
    var w := Widen(b);
    ZeroBytes(c);
    PeelZeroByte(Shl24(c), w, 56);
    PeelZeroByte(Shl16(c), w, 48);
    PeelZeroByte(Shl8(c), w, 40);
    PeelByte(Wide64(c), w, 32);
    BitsShifted(NextBytes(Wide64(c)), w, 32);
  }

  function LowByteOf(v: Vector): Byte { (v & 0xFF) as Byte }
  function Low32Mask(v: Vector): Vector { v & 0xFFFFFFFF }
  function Low64(v: Vector): bv64 { (v & 0xFFFF_FFFF_FFFF_FFFF) as bv64 }
  function Lane1(v: Vector): bv32 { ((v >> 32) & 0xFFFFFFFF) as bv32 }
  function MiddleOf(v: Vector): bv32 { ((v >> 8) & 0xFFFFFFFF) as bv32 }
  function ShiftRight8(c: bv32): bv32 { c >> 8 }

  function ShiftBy24(v: Vector): Vector { v << 24 }

  lemma MaskKeepsByte(x: Vector, y: Vector)
    ensures Low64(Low32Mask(ShiftBy24(Xor128(x, Shift8(y))))) == Shl24(Wide(LowByteOf(x)))
  {
  }

  /** What the first multiplication and the mask leave, of the low byte of the register. */
  function Quotient(c0: Byte): Byte {
    LowByteOf(ByteTimes(c0, Widen(MU)))
  }

  lemma LowByteOfWide64(c: bv32)
    ensures LowByte(Wide64(c)) == LowByte32(c)
  {
  }

  function LowByte32(c: bv32): Byte { (c & 0xFF) as Byte }

  lemma ShiftLiterals(v: Vector)
    ensures Shift8(v << 8) == v << 16 && Shift8(v << 16) == v << 24
  {
  }

  lemma Shift24Written(v: Vector)
    ensures Shift24(v) == ShiftBy24(v)
  {
    hide Shift8;
    ShiftDefinitions(v);
    ShiftLiterals(v);
  }

  lemma QuotientMasked(c: bv32)
    ensures Low64(Low32Mask(Product(Shl24(c), MU))) == Shl24(Wide(Quotient(LowByte32(c))))
  {
    hide LowByte, NextBytes, ByteTimes, Shift8, Xor128, Bits, Widen, Shl24, Wide64, Low64, Low32Mask, LowByteOf, Product, Shift24, LowByte32, Wide;
    ProductOfShifted(c, MU);
    LowByteOfWide64(c);
    MaskOfShifted(ByteTimes(LowByte32(c), Widen(MU)), Bits(NextBytes(Wide64(c)), Widen(MU), 32));
  }

  lemma MaskOfShifted(x: Vector, y: Vector)
    ensures Low64(Low32Mask(Shift24(Xor128(x, Shift8(y))))) == Shl24(Wide(LowByteOf(x)))
  {
    hide Shift24, ShiftBy24, Shift8, Xor128, Low64, Low32Mask, Shl24, Wide, LowByteOf;
    Shift24Written(Xor128(x, Shift8(y)));
    MaskKeepsByte(x, y);
  }

  /** The second multiplication has nothing but that byte to multiply. */
  lemma ProductOfByte(t: Byte)
    ensures Product(Shl24(Wide(t)), GENERATOR) == Shift24(ByteTimes(t, Widen(GENERATOR)))
  {
    hide LowByte, NextBytes, ByteTimes, Shift8, Xor128, Bits, Widen, Shl24, Wide64, Product, Shift24, Wide, LowByte32;
    ProductOfShifted(Wide(t), GENERATOR);
    LowByteOfWide64(Wide(t));
    WideHasOneByte(t);
    ZeroTimes(Widen(GENERATOR), 32);
    ShiftZero();
    XorZero(ByteTimes(t, Widen(GENERATOR)));
  }

  lemma WideHasOneByte(t: Byte)
    ensures LowByte32(Wide(t)) == t && NextBytes(Wide64(Wide(t))) == 0
  {
  }

  function OneLane(x: bv64): Vector { x as bv128 }

  function Gate32(x: Byte, mask: Byte, v: bv32): bv32 { if x & mask != 0 then v else 0 }
  function GateByte(x: Byte, mask: Byte, v: Byte): Byte { if x & mask != 0 then v else 0 }
  function XorByte(x: Byte, y: Byte): Byte { x ^ y }

  /** The first product's byte and the second product's middle, a bit of the factor at a time. */
  function QuotientWritten(x: Byte): Byte {
    XorByte(GateByte(x, 0x01, 0xf1), XorByte(GateByte(x, 0x02, 0xe2), XorByte(GateByte(x, 0x04, 0xc4), 
      XorByte(GateByte(x, 0x08, 0x88), XorByte(GateByte(x, 0x10, 0x10), XorByte(GateByte(x, 0x20, 0x20), 
      XorByte(GateByte(x, 0x40, 0x40), GateByte(x, 0x80, 0x80))))))))
  }

  function MiddleWritten(x: Byte): bv32 {
    Xor32(Gate32(x, 0x01, 0x105ec76), Xor32(Gate32(x, 0x02, 0x20bd8ed), Xor32(Gate32(x, 0x04, 0x417b1db), 
      Xor32(Gate32(x, 0x08, 0x82f63b7), Xor32(Gate32(x, 0x10, 0x105ec76f), Xor32(Gate32(x, 0x20, 0x20bd8ede), 
      Xor32(Gate32(x, 0x40, 0x417b1dbc), Gate32(x, 0x80, 0x82f63b78))))))))
  }

  lemma LowByteXor(x: Vector, y: Vector)
    ensures LowByteOf(Xor128(x, y)) == XorByte(LowByteOf(x), LowByteOf(y))
  {
  }

  lemma MiddleXor(x: Vector, y: Vector)
    ensures MiddleOf(Xor128(x, y)) == Xor32(MiddleOf(x), MiddleOf(y))
  {
  }

  lemma LowByteGate(x: Byte, mask: Byte, v: Vector)
    ensures LowByteOf(Gate(x, mask, v)) == GateByte(x, mask, LowByteOf(v))
  {
  }

  lemma MiddleGate(x: Byte, mask: Byte, v: Vector)
    ensures MiddleOf(Gate(x, mask, v)) == Gate32(x, mask, MiddleOf(v))
  {
  }

  lemma LowBytesOfMu()
    ensures var v: Vector := 0x1dea713f1;
            && LowByteOf(v) == 0xf1 && LowByteOf(v << 1) == 0xe2 && LowByteOf(v << 2) == 0xc4 && LowByteOf(v << 3) == 0x88
            && LowByteOf(v << 4) == 0x10 && LowByteOf(v << 5) == 0x20 && LowByteOf(v << 6) == 0x40 && LowByteOf(v << 7) == 0x80
  {
  }

  lemma MiddlesOfGenerator()
    ensures var v: Vector := 0x105EC76F1;
            && MiddleOf(v) == 0x105ec76 && MiddleOf(v << 1) == 0x20bd8ed && MiddleOf(v << 2) == 0x417b1db && MiddleOf(v << 3) == 0x82f63b7
            && MiddleOf(v << 4) == 0x105ec76f && MiddleOf(v << 5) == 0x20bd8ede && MiddleOf(v << 6) == 0x417b1dbc && MiddleOf(v << 7) == 0x82f63b78
  {
  }

  lemma QuotientIsWritten(x: Byte)
    ensures LowByteOf(ByteTimes(x, 0x1dea713f1)) == QuotientWritten(x)
  {
    hide LowByteOf, Xor128, XorByte, Gate, GateByte;
    LowBytesOfMu();
    forall v, w ensures LowByteOf(Xor128(v, w)) == XorByte(LowByteOf(v), LowByteOf(w)) { LowByteXor(v, w); }
    forall mask, v ensures LowByteOf(Gate(x, mask, v)) == GateByte(x, mask, LowByteOf(v)) { LowByteGate(x, mask, v); }
  }

  lemma MiddleIsWritten(x: Byte)
    ensures MiddleOf(ByteTimes(x, 0x105EC76F1)) == MiddleWritten(x)
  {
    hide MiddleOf, Xor128, Xor32, Gate, Gate32;
    MiddlesOfGenerator();
    forall v, w ensures MiddleOf(Xor128(v, w)) == Xor32(MiddleOf(v), MiddleOf(w)) { MiddleXor(v, w); }
    forall mask, v ensures MiddleOf(Gate(x, mask, v)) == Gate32(x, mask, MiddleOf(v)) { MiddleGate(x, mask, v); }
  }

  // Both sides of the next lemma are sums over the bits of the byte, so that single bits decide it.

  lemma BytesAssociate(x: Byte, y: Byte, z: Byte)
    ensures XorByte(XorByte(x, y), z) == XorByte(x, XorByte(y, z))
  {
  }

  lemma BytesSwap(x: Byte, y: Byte)
    ensures XorByte(x, y) == XorByte(y, x)
  {
  }

  lemma ExchangeBytes(a: Byte, b: Byte, c: Byte, d: Byte)
    ensures XorByte(XorByte(a, b), XorByte(c, d)) == XorByte(XorByte(a, c), XorByte(b, d))
  {
    hide XorByte;
    BytesAssociate(a, b, XorByte(c, d));
    BytesAssociate(b, c, d);
    BytesSwap(b, c);
    BytesAssociate(c, b, d);
    BytesAssociate(a, c, XorByte(b, d));
  }

  lemma Exchange32(a: bv32, b: bv32, c: bv32, d: bv32)
    ensures Xor32(Xor32(a, b), Xor32(c, d)) == Xor32(Xor32(a, c), Xor32(b, d))
  {
    hide Xor32;
    XorAssociative(a, b, Xor32(c, d));
    XorAssociative(b, c, d);
    Xor32Swaps(b, c);
    XorAssociative(c, b, d);
    XorAssociative(a, c, Xor32(b, d));
  }

  lemma GateByteXor(x: Byte, y: Byte, mask: Byte, v: Byte)
    requires mask & (mask - 1) == 0
    ensures GateByte(XorByte(x, y), mask, v) == XorByte(GateByte(x, mask, v), GateByte(y, mask, v))
  {
    hide XorByte;
    BitOfXor(x, y, mask);
    BytesCancel(v);
    BytesCancel(0);
  }

  lemma BytesCancel(x: Byte)
    ensures XorByte(x, 0) == x && XorByte(0, x) == x && XorByte(x, x) == 0
  {
  }

  lemma Gate32Xor(x: Byte, y: Byte, mask: Byte, v: bv32)
    requires mask & (mask - 1) == 0
    ensures Gate32(XorByte(x, y), mask, v) == Xor32(Gate32(x, mask, v), Gate32(y, mask, v))
  {
    hide XorByte, Xor32;
    BitOfXor(x, y, mask);
    XorNothing(v);
    XorNothing(0);
  }

  lemma BitOfXor(x: Byte, y: Byte, mask: Byte)
    requires mask & (mask - 1) == 0
    ensures XorByte(x, y) & mask != 0 <==> (x & mask != 0) != (y & mask != 0)
  {
  }

  lemma QuotientLinear(x: Byte, y: Byte)
    ensures QuotientWritten(XorByte(x, y)) == XorByte(QuotientWritten(x), QuotientWritten(y))
  {
    hide XorByte, Xor32, GateByte;
    GateByteXor(x, y, 0x01, 0xf1);
    GateByteXor(x, y, 0x02, 0xe2);
    GateByteXor(x, y, 0x04, 0xc4);
    GateByteXor(x, y, 0x08, 0x88);
    GateByteXor(x, y, 0x10, 0x10);
    GateByteXor(x, y, 0x20, 0x20);
    GateByteXor(x, y, 0x40, 0x40);
    GateByteXor(x, y, 0x80, 0x80);
    var (x7, y7) := (GateByte(x, 0x80, 0x80), GateByte(y, 0x80, 0x80));
    ExchangeBytes(GateByte(x, 0x40, 0x40), GateByte(y, 0x40, 0x40), x7, y7);
    var (x6, y6) := (XorByte(GateByte(x, 0x40, 0x40), x7), XorByte(GateByte(y, 0x40, 0x40), y7));
    ExchangeBytes(GateByte(x, 0x20, 0x20), GateByte(y, 0x20, 0x20), x6, y6);
    var (x5, y5) := (XorByte(GateByte(x, 0x20, 0x20), x6), XorByte(GateByte(y, 0x20, 0x20), y6));
    ExchangeBytes(GateByte(x, 0x10, 0x10), GateByte(y, 0x10, 0x10), x5, y5);
    var (x4, y4) := (XorByte(GateByte(x, 0x10, 0x10), x5), XorByte(GateByte(y, 0x10, 0x10), y5));
    ExchangeBytes(GateByte(x, 0x08, 0x88), GateByte(y, 0x08, 0x88), x4, y4);
    var (x3, y3) := (XorByte(GateByte(x, 0x08, 0x88), x4), XorByte(GateByte(y, 0x08, 0x88), y4));
    ExchangeBytes(GateByte(x, 0x04, 0xc4), GateByte(y, 0x04, 0xc4), x3, y3);
    var (x2, y2) := (XorByte(GateByte(x, 0x04, 0xc4), x3), XorByte(GateByte(y, 0x04, 0xc4), y3));
    ExchangeBytes(GateByte(x, 0x02, 0xe2), GateByte(y, 0x02, 0xe2), x2, y2);
    var (x1, y1) := (XorByte(GateByte(x, 0x02, 0xe2), x2), XorByte(GateByte(y, 0x02, 0xe2), y2));
    ExchangeBytes(GateByte(x, 0x01, 0xf1), GateByte(y, 0x01, 0xf1), x1, y1);
  }

  lemma MiddleLinear(x: Byte, y: Byte)
    ensures MiddleWritten(XorByte(x, y)) == Xor32(MiddleWritten(x), MiddleWritten(y))
  {
    hide XorByte, Xor32, Gate32;
    Gate32Xor(x, y, 0x01, 0x105ec76);
    Gate32Xor(x, y, 0x02, 0x20bd8ed);
    Gate32Xor(x, y, 0x04, 0x417b1db);
    Gate32Xor(x, y, 0x08, 0x82f63b7);
    Gate32Xor(x, y, 0x10, 0x105ec76f);
    Gate32Xor(x, y, 0x20, 0x20bd8ede);
    Gate32Xor(x, y, 0x40, 0x417b1dbc);
    Gate32Xor(x, y, 0x80, 0x82f63b78);
    var (x7, y7) := (Gate32(x, 0x80, 0x82f63b78), Gate32(y, 0x80, 0x82f63b78));
    Exchange32(Gate32(x, 0x40, 0x417b1dbc), Gate32(y, 0x40, 0x417b1dbc), x7, y7);
    var (x6, y6) := (Xor32(Gate32(x, 0x40, 0x417b1dbc), x7), Xor32(Gate32(y, 0x40, 0x417b1dbc), y7));
    Exchange32(Gate32(x, 0x20, 0x20bd8ede), Gate32(y, 0x20, 0x20bd8ede), x6, y6);
    var (x5, y5) := (Xor32(Gate32(x, 0x20, 0x20bd8ede), x6), Xor32(Gate32(y, 0x20, 0x20bd8ede), y6));
    Exchange32(Gate32(x, 0x10, 0x105ec76f), Gate32(y, 0x10, 0x105ec76f), x5, y5);
    var (x4, y4) := (Xor32(Gate32(x, 0x10, 0x105ec76f), x5), Xor32(Gate32(y, 0x10, 0x105ec76f), y5));
    Exchange32(Gate32(x, 0x08, 0x82f63b7), Gate32(y, 0x08, 0x82f63b7), x4, y4);
    var (x3, y3) := (Xor32(Gate32(x, 0x08, 0x82f63b7), x4), Xor32(Gate32(y, 0x08, 0x82f63b7), y4));
    Exchange32(Gate32(x, 0x04, 0x417b1db), Gate32(y, 0x04, 0x417b1db), x3, y3);
    var (x2, y2) := (Xor32(Gate32(x, 0x04, 0x417b1db), x3), Xor32(Gate32(y, 0x04, 0x417b1db), y3));
    Exchange32(Gate32(x, 0x02, 0x20bd8ed), Gate32(y, 0x02, 0x20bd8ed), x2, y2);
    var (x1, y1) := (Xor32(Gate32(x, 0x02, 0x20bd8ed), x2), Xor32(Gate32(y, 0x02, 0x20bd8ed), y2));
    Exchange32(Gate32(x, 0x01, 0x105ec76), Gate32(y, 0x01, 0x105ec76), x1, y1);
  }

  lemma WideXor(x: Byte, y: Byte)
    ensures Wide(XorByte(x, y)) == Xor32(Wide(x), Wide(y))
  {
  }

  lemma DivisionLinear(x: Byte, y: Byte)
    ensures Step8(Wide(XorByte(x, y))) == Xor32(Step8(Wide(x)), Step8(Wide(y)))
  {
    hide Step4, Wide, Xor32, XorByte;
    WideXor(x, y);
    Step4Linear(Wide(x), Wide(y));
    Step4Linear(Step4(Wide(x)), Step4(Wide(y)));
  }

  predicate Divides(x: Byte) { MiddleWritten(QuotientWritten(x)) == Step8(Wide(x)) }

  lemma SumDivides(x: Byte, y: Byte)
    requires Divides(x) && Divides(y)
    ensures Divides(XorByte(x, y))
  {
    hide QuotientWritten, MiddleWritten, Step8, Wide, XorByte, Xor32;
    QuotientLinear(x, y);
    MiddleLinear(QuotientWritten(x), QuotientWritten(y));
    DivisionLinear(x, y);
  }

  lemma NothingDivides()
    ensures Divides(0) && Divides(0x01)
  {
  }

  lemma LowBitsDivide()
    ensures Divides(0x02) && Divides(0x04) && Divides(0x08)
  {
  }

  lemma HighBitsDivide()
    ensures Divides(0x10) && Divides(0x20)
  {
  }

  lemma HighestBitsDivide()
    ensures Divides(0x40) && Divides(0x80)
  {
  }

  lemma BitsOfByte(x: Byte)
    ensures x == XorByte(GateByte(x, 0x01, 0x01), XorByte(GateByte(x, 0x02, 0x02), XorByte(GateByte(x, 0x04, 0x04),
                 XorByte(GateByte(x, 0x08, 0x08), XorByte(GateByte(x, 0x10, 0x10), XorByte(GateByte(x, 0x20, 0x20),
                 XorByte(GateByte(x, 0x40, 0x40), GateByte(x, 0x80, 0x80))))))))
  {
  }

  lemma WrittenIsDivision(x: Byte)
    ensures Divides(x)
  {
    hide Divides, XorByte;
    NothingDivides();
    LowBitsDivide();
    HighBitsDivide();
    HighestBitsDivide();
    BitsOfByte(x);
    var (b6, b7) := (GateByte(x, 0x40, 0x40), GateByte(x, 0x80, 0x80));
    var (b0, b1, b2) := (GateByte(x, 0x01, 0x01), GateByte(x, 0x02, 0x02), GateByte(x, 0x04, 0x04));
    var (b3, b4, b5) := (GateByte(x, 0x08, 0x08), GateByte(x, 0x10, 0x10), GateByte(x, 0x20, 0x20));
    SumDivides(b6, b7);
    var from5 := XorByte(b5, XorByte(b6, b7));
    SumDivides(b5, XorByte(b6, b7));
    SumDivides(b4, from5);
    SumDivides(b3, XorByte(b4, from5));
    var from2 := XorByte(b2, XorByte(b3, XorByte(b4, from5)));
    SumDivides(b2, XorByte(b3, XorByte(b4, from5)));
    SumDivides(b1, from2);
    SumDivides(b0, XorByte(b1, from2));
  }

  lemma Constants()
    ensures Widen(MU) == 0x1dea713f1 && Widen(GENERATOR) == 0x105EC76F1
  {
  }

  /** On a single byte the two multiplications do what eight steps of the division do. */
  lemma BarrettOnByte(c0: Byte)
    ensures MiddleOf(ByteTimes(Quotient(c0), Widen(GENERATOR))) == Step8(Wide(c0))
  {
    hide ByteTimes, LowByteOf, MiddleOf, Widen, QuotientWritten, MiddleWritten, Step8;
    Constants();
    QuotientIsWritten(c0);
    MiddleIsWritten(Quotient(c0));
    WrittenIsDivision(c0);
  }

  function Upper24(c: bv32): bv32 { c & 0xFFFFFF00 }

  lemma Step8Upper(c: bv32)
    ensures Step8(Upper24(c)) == ShiftRight8(c)
  {
  }

  lemma Split8(c: bv32)
    ensures Xor32(Upper24(c), Wide(LowByte32(c))) == c
  {
  }

  lemma Step8Splits(c: bv32)
    ensures Step8(c) == Xor32(ShiftRight8(c), Step8(Wide(LowByte32(c))))
  {
    hide Step4, Xor32, Upper24, Wide, LowByte32, ShiftRight8;
    Split8(c);
    Step4Linear(Upper24(c), Wide(LowByte32(c)));
    Step4Linear(Step4(Upper24(c)), Step4(Wide(LowByte32(c))));
    Step8Upper(c);
  }

  function BarrettLane(tmp: Vector, orig: bv64): bv32 {
    Lane1(Xor128(tmp, OneLane(orig)))
  }

  lemma Lane1Linear(x: Vector, y: Vector)
    ensures Lane1(Xor128(x, y)) == Xor32(Lane1(x), Lane1(y))
  {
  }

  lemma LaneOfShift(z: Vector)
    ensures Lane1(ShiftBy24(z)) == MiddleOf(z)
  {
  }

  lemma LaneOfRegister(c: bv32)
    ensures Lane1(OneLane(Shl24(c))) == ShiftRight8(c)
  {
  }

  lemma LaneOfSum(z: Vector, c: bv32)
    ensures BarrettLane(ShiftBy24(z), Shl24(c)) == Xor32(MiddleOf(z), ShiftRight8(c))
  {
    hide Lane1, Xor128, Xor32, ShiftBy24, OneLane, Shl24, MiddleOf, ShiftRight8;
    Lane1Linear(ShiftBy24(z), OneLane(Shl24(c)));
    LaneOfShift(z);
    LaneOfRegister(c);
  }

  lemma Xor32Swaps(x: bv32, y: bv32)
    ensures Xor32(x, y) == Xor32(y, x)
  {
  }

  /** The two products, the mask and the lane that is kept are eight steps of the division. */
  lemma BarrettIsEightSteps(c: bv32)
    ensures var tmp := Low64(Low32Mask(Product(Shl24(c), MU)));
            BarrettLane(Product(tmp, GENERATOR), Shl24(c)) == Step8(c)
  {
    hide Product, Low64, Low32Mask, Shl24, BarrettLane, Step8, Quotient, ByteTimes, Widen, MiddleOf, Shift24, ShiftBy24,
         Wide, LowByte32, Xor32, ShiftRight8;
    QuotientMasked(c);
    var t := Quotient(LowByte32(c));
    ProductOfByte(t);
    var z := ByteTimes(t, Widen(GENERATOR));
    Shift24Written(z);
    LaneOfSum(z, c);
    BarrettOnByte(LowByte32(c));
    Step8Splits(c);
    Xor32Swaps(MiddleOf(z), ShiftRight8(c));
  }

  // ---- The code ----

  method CrcU8Table(crc0: bv32, v: Byte) returns (crc: bv32)
    ensures crc == Serial(crc0, ByteBits(v))
  {
    hide Serial, ByteBits, Xor32, Wide, Step4, HalfByteTable, Lower4, ShiftRight4;
    crc := Xor32(crc0, Wide(v));
    ByteIsEightSteps(crc0, v);
    HalfByteIsFourSteps(crc);
    HalfByteIsFourSteps(Step4(crc));
    crc := Xor32(ShiftRight4(crc), HalfByteTable(Lower4(crc)));
    crc := Xor32(ShiftRight4(crc), HalfByteTable(Lower4(crc)));
  }

  /** The same with polynomial multiplications, here those of the polyfill. */
  method CrcU8Barrett(crc0: bv32, v: Byte) returns (crc: bv32)
    ensures crc == Serial(crc0, ByteBits(v))
  {
    hide Serial, ByteBits, Xor32, Wide, Step8, Product, ClmulPolyfill.VmullP64, Low64, Low32Mask, Shl24, BarrettLane;
    crc := Xor32(crc0, Wide(v));
    ByteIsEightSteps(crc0, v);
    BarrettIsEightSteps(crc);
    var orig := Shl24(crc);
    ClmulPolyfill.VmullP64IsProduct(orig, MU);
    var tmp := ClmulPolyfill.VmullP64(orig, MU);
    tmp := Low32Mask(tmp);
    ClmulPolyfill.VmullP64IsProduct(Low64(tmp), GENERATOR);
    tmp := ClmulPolyfill.VmullP64(Low64(tmp), GENERATOR);
    crc := BarrettLane(tmp, orig);
  }

  function Byte0(v: bv16): Byte { (v & 0xff) as Byte }
  function Byte1(v: bv16): Byte { ((v >> 8) & 0xff) as Byte }
  function Half0(v: bv32): bv16 { (v & 0xffff) as bv16 }
  function Half1(v: bv32): bv16 { ((v >> 16) & 0xffff) as bv16 }
  function Word0(v: bv64): bv32 { (v & 0xffffffff) as bv32 }
  function Word1(v: bv64): bv32 { ((v >> 32) & 0xffffffff) as bv32 }

  /** The bytes of an operand, the lowest first. */
  function Packed16(v: bv16): Bytes { [Byte0(v), Byte1(v)] }
  function Packed32(v: bv32): Bytes { Packed16(Half0(v)) + Packed16(Half1(v)) }
  function Packed64(v: bv64): Bytes { Packed32(Word0(v)) + Packed32(Word1(v)) }

  lemma BytesOfHalves(v: bv32)
    ensures var s := WriteLE32(v);
            s[0] == Byte0(Half0(v)) && s[1] == Byte1(Half0(v)) && s[2] == Byte0(Half1(v)) && s[3] == Byte1(Half1(v))
  {
  }

  lemma BytesOfWords(w: bv64)
    ensures var (s, p, q) := (WriteLE64(w), WriteLE32(Word0(w)), WriteLE32(Word1(w)));
            s[0] == p[0] && s[1] == p[1] && s[2] == p[2] && s[3] == p[3]
            && s[4] == q[0] && s[5] == q[1] && s[6] == q[2] && s[7] == q[3]
  {
  }

  lemma Packed32IsLittleEndian(v: bv32)
    ensures Packed32(v) == WriteLE32(v)
  {
    hide Byte0, Byte1, Half0, Half1, WriteLE32;
    BytesOfHalves(v);
  }

  /** The operands are cut up in little-endian order. */
  lemma PackedIsLittleEndian(w: bv64)
    ensures Packed64(w) == WriteLE64(w)
  {
    hide Packed32, Word0, Word1, WriteLE32, WriteLE64;
    Packed32IsLittleEndian(Word0(w));
    Packed32IsLittleEndian(Word1(w));
    BytesOfWords(w);
  }

  lemma SerialOfBytes(crc: bv32, s: Bytes, t: Bytes)
    ensures Serial(crc, BitsOf(s + t)) == Serial(Serial(crc, BitsOf(s)), BitsOf(t))
  {
    BitsConcat(s, t);
    SerialConcat(crc, BitsOf(s), BitsOf(t));
  }

  lemma BitsOfOne(v: Byte)
    ensures BitsOf([v]) == ByteBits(v)
  {
    hide ByteBits;
    assert [v][1..] == [];
  }

  method CrcU8(crc0: bv32, v: Byte) returns (crc: bv32)
    ensures crc == Serial(crc0, BitsOf([v]))
  {
    hide Serial, BitsOf, ByteBits;
    BitsOfOne(v);
    crc := CrcU8Table(crc0, v);
  }

  method CrcU16(crc0: bv32, v: bv16) returns (crc: bv32)
    ensures crc == Serial(crc0, BitsOf(Packed16(v)))
  {
    hide Serial, BitsOf, Byte0, Byte1;
    SerialOfBytes(crc0, [Byte0(v)], [Byte1(v)]);
    assert Packed16(v) == [Byte0(v)] + [Byte1(v)];
    crc := CrcU8(crc0, Byte0(v));
    crc := CrcU8(crc, Byte1(v));
  }

  method CrcU32(crc0: bv32, v: bv32) returns (crc: bv32)
    ensures crc == Serial(crc0, BitsOf(Packed32(v)))
  {
    hide Serial, BitsOf, Packed16, Half0, Half1;
    SerialOfBytes(crc0, Packed16(Half0(v)), Packed16(Half1(v)));
    crc := CrcU16(crc0, Half0(v));
    crc := CrcU16(crc, Half1(v));
  }

  /** The register goes in and comes out as 64 bits, of which only the lower half counts. */
  method CrcU64(crc0: bv64, v: bv64) returns (crc: bv64)
    ensures crc == Wide64(Serial(Word0(crc0), BitsOf(Packed64(v))))
  {
    hide Serial, BitsOf, Packed32, Word0, Word1, Wide64;
    SerialOfBytes(Word0(crc0), Packed32(Word0(v)), Packed32(Word1(v)));
    var c := CrcU32(Word0(crc0), Word0(v));
    c := CrcU32(c, Word1(v));
    crc := Wide64(c);
  }

  datatype Operand = U8(b: Byte) | U16(h: bv16) | U32(w: bv32) | U64(d: bv64)

  function PackedBytes(op: Operand): Bytes {
    match op
    case U8(b) => [b]
    case U16(h) => Packed16(h)
    case U32(w) => Packed32(w)
    case U64(d) => Packed64(d)
  }

  function AllBytes(ops: seq<Operand>): Bytes
    decreases |ops|
  {
    if ops == [] then [] else AllBytes(ops[..|ops| - 1]) + PackedBytes(ops[|ops| - 1])
  }

  lemma Word0OfWide(c: bv32)
    ensures Word0(Wide64(c)) == c
  {
  }

  method FeedOperand(crc0: bv32, op: Operand) returns (crc: bv32)
    ensures crc == Serial(crc0, BitsOf(PackedBytes(op)))
  {
    hide Serial, BitsOf, Packed16, Packed32, Packed64, Word0, Wide64;
    match op {
      case U8(b) => crc := CrcU8(crc0, b);
      case U16(h) => crc := CrcU16(crc0, h);
      case U32(w) => crc := CrcU32(crc0, w);
      case U64(d) =>
        var wide := CrcU64(Wide64(crc0), d);
        Word0OfWide(crc0);
        Word0OfWide(Serial(crc0, BitsOf(Packed64(d))));
        crc := Word0(wide);
    }
  }

  /** Whatever mix of operand sizes a byte string is cut into, the register ends where bit-serial
      division of the whole string leaves it. */
  method FeedOperands(crc0: bv32, ops: seq<Operand>) returns (crc: bv32)
    ensures crc == Serial(crc0, BitsOf(AllBytes(ops)))
  {
    hide Serial, BitsOf, PackedBytes;
    SerialOfNothing(crc0);
    crc := crc0;
    for i := 0 to |ops|
      invariant crc == Serial(crc0, BitsOf(AllBytes(ops[..i])))
    {
      assert ops[..i + 1][..i] == ops[..i];
      SerialOfBytes(crc0, AllBytes(ops[..i]), PackedBytes(ops[i]));
      crc := FeedOperand(crc, ops[i]);
    }
    assert ops[..|ops|] == ops;
  }

  lemma SerialOfNothing(crc: bv32)
    ensures Serial(crc, BitsOf([])) == crc
  {
  }
}
