/** The encodings of multiplications and of index register arithmetic, and what decoding them has in common. */
module OperandForms {
  import opened Conversions
  import opened Dependencies
  import opened Handlers
  import opened InstructionEntry
  import opened Machine
  import opened Words
  import DecodeMul
  import DecodeRcu
  import ExecuteRcu
  import Mixing

  // ---- Multiplications ----

  function First(opcode: Byte, j: bv32): Byte { opcode | Narrow((j >> 3) & 0x03) }
  function Second(j: bv32, i: bv32): Byte { Narrow(((j & 0x07) << 5) | (i & 0x1F)) }

  lemma RegistersBack(opcode: Byte, j: bv32, i: bv32)
    requires j < 32 && i < 32 && opcode & 0x03 == 0
    ensures DecodeMul.Upper(First(opcode, j), Second(j, i)) == j && DecodeMul.Lower(Second(j, i)) == i && DecodeMul.Lower(Narrow(i)) == i
    ensures First(opcode, j) & 0x04 == opcode & 0x04 && !DecodeMul.Marked(Narrow(j))
  {
  }

  lemma Kinds()
    ensures DecodeMul.KindOf(0x00) == 0x00 && DecodeMul.KindOf(0x07) == 0x07
  {
  }

  /** mul Si, Sk, >>acshift, Sk: the 16-bit form and the 32-bit form with the destination spelled out. */
  lemma ScalarFormsAgree(i: bv32, k: bv32)
    requires i < 32 && k < 32
    ensures DecodeMul.Mul16(First(0x40, k), Second(k, i)) == DecodeMul.Mul32(First(0x9C, k), Second(k, i), 0x00, Narrow(k))
  {
    hide DecodeMul.Upper, DecodeMul.Lower, DecodeMul.Marked, DecodeMul.KindOf, First, Second, Narrow, DecodeMul.ScalarByAcshift,
         DecodeMul.VectorBySvshift;
    Kinds();
    RegistersBack(0x40, k, i);
    RegistersBack(0x9C, k, i);
    RegistersBack(0x40, k, k);
  }

  /** mul_sv Vi, Vk, >>svshift, Vk likewise. */
  lemma VectorFormsAgree(i: bv32, k: bv32)
    requires i < 32 && k < 32
    ensures DecodeMul.Mul16(First(0x44, k), Second(k, i)) == DecodeMul.Mul32(First(0x9C, k), Second(k, i), 0x07, Narrow(k))
  {
    hide DecodeMul.Upper, DecodeMul.Lower, DecodeMul.Marked, DecodeMul.KindOf, First, Second, Narrow, DecodeMul.ScalarByAcshift,
         DecodeMul.VectorOf, VectorMask;
    Kinds();
    RegistersBack(0x44, k, i);
    RegistersBack(0x9C, k, i);
    RegistersBack(0x44, k, k);
  }

  /** Shift amounts from -64 to 63 come back as a size and a direction. */
  lemma ShiftBack(m: bv32)
    requires m + 64 < 128
    ensures var b3 := 0x80 | Narrow(m & 0x7F);
            DecodeMul.ShiftsRight(b3) == (m & 0x80000000 == 0) && DecodeMul.ShiftSize(b3) == if m & 0x80000000 == 0 then m else 0 - m
  {
  }

  // ---- Immediates of the register unit ----

  function MiddleBits(v: bv32): bv32 { (v >> 16) & 0x1F }
  function OuterBits(v: bv32): bv32 { (((v >> 21) << 16) & 0x07FF0000) | (v & 0xFFFF) }

  /** Every 32-bit immediate comes back from an extension word whose lower 27 bits hold its outer bits. */
  lemma LongBack(v: bv32, immExt: bv32)
    requires immExt & 0x07FFFFFF == OuterBits(v)
    ensures DecodeRcu.LongImmediate(Widen(MiddleBits(v)), immExt) == Widen(v)
  {
  }

  /** Multiples of 2^16 from -16 to 15 times that. */
  predicate FitsShort(v: bv32) { v & 0xFFFF == 0 && v + 0x100000 < 0x200000 }

  lemma ShortBack(v: bv32)
    requires FitsShort(v)
    ensures DecodeRcu.ShortImmediate(Widen(MiddleBits(v))) == SignExtend(v)
  {
  }

  lemma WholeField(v: bv32)
    ensures SignExtend(v) == Widen(v) <==> v & 0x80000000 == 0
  {
  }

  function AddrFirst(v: bv32): Byte { 0x74 | Narrow(MiddleBits(v) >> 3) }
  function MvrFirst(v: bv32): Byte { 0x78 | Narrow(MiddleBits(v) >> 3) }

  /** The low bits of the source, the destination, bit 2 and the counters. */
  function AddrSecond(v: bv32, dest: Byte, bit2: Byte, dec: Byte): Byte {
    Narrow((MiddleBits(v) & 0x07) << 5) | ((dest & 0x03) << 3) | bit2 | (dec & 0x03)
  }

  lemma AddrFields(v: bv32, dest: Byte, dec: Byte)
    ensures DecodeRcu.IsAddrForm(AddrFirst(v)) && DecodeRcu.Bit2(AddrSecond(v, dest, 4, dec))
    ensures DecodeRcu.SrcField(AddrFirst(v), AddrSecond(v, dest, 4, dec)) == MiddleBits(v)
    ensures !DecodeRcu.IsDecOnly(AddrFirst(v), AddrSecond(v, dest, 4, dec))
  {
  }

  lemma MvrFields(v: bv32, dest: Byte, dec: Byte)
    ensures !DecodeRcu.IsAddrForm(MvrFirst(v))
    ensures DecodeRcu.SrcField(MvrFirst(v), AddrSecond(v, dest, 0, dec)) == MiddleBits(v)
    ensures !DecodeRcu.IsDecOnly(MvrFirst(v), AddrSecond(v, dest, 0, dec))
  {
  }

  /** addr or mvr of a number, with what else the second byte asks for. */
  function AddrOf(b1: Byte, number: bv64): Effects {
    var index := IndexMask(DecodeRcu.DestField(b1));
    DecodeRcu.Effect(ADDR_IMMEDIATE, b1, number, Keep, Merge(Or(DecodeRcu.DecMask(b1), index)), index)
  }

  function MvrOf(b1: Byte, number: bv64): Effects {
    DecodeRcu.Effect(MVR_IMMEDIATE, b1, number, Keep, Merge(DecodeRcu.DecMask(b1)), IndexMask(DecodeRcu.DestField(b1)))
  }

  lemma NumbersTellApart(b1: Byte, x: bv64, y: bv64)
    ensures AddrOf(b1, x) == AddrOf(b1, y) <==> x == y
  {
    hide DecodeRcu.DestField, DecodeRcu.DecMask, IndexMask, Or, DecodeRcu.Counting, DecodeRcu.InfoField, Widen;
    assert AddrOf(b1, x).f2 == Set(x) && AddrOf(b1, y).f2 == Set(y);
  }

  /** mvr of any immediate that has an extension word. */
  lemma MvrImmediateBack(v: bv32, dest: Byte, dec: Byte, immExt: bv32)
    requires immExt & 0x07FFFFFF == OuterBits(v) && immExt != 0
    ensures var b1 := AddrSecond(v, dest, 0, dec); DecodeRcu.Rcu16(MvrFirst(v), b1, immExt) == MvrOf(b1, Widen(v))
  {
    hide MvrFirst, AddrSecond, DecodeRcu.SrcField, DecodeRcu.LongImmediate, MiddleBits, OuterBits, Widen, DecodeRcu.IsDecOnly, DecodeRcu.IsAddrForm,
         DecodeRcu.Effect;
    MvrFields(v, dest, dec);
    LongBack(v, immExt);
  }

  /** addr of an immediate, in the form with an extension word and in the short one. */
  lemma AddrImmediatesBack(v: bv32, dest: Byte, dec: Byte, immExt: bv32)
    requires immExt & 0x07FFFFFF == OuterBits(v) && immExt != 0
    ensures var b1 := AddrSecond(v, dest, 4, dec);
            && DecodeRcu.Rcu16(AddrFirst(v), b1, immExt) == AddrOf(b1, Widen(v))
            && (FitsShort(v) ==> DecodeRcu.Rcu16(AddrFirst(v), b1, 0) == AddrOf(b1, SignExtend(v)))
  {
    hide AddrFirst, AddrSecond, DecodeRcu.SrcField, DecodeRcu.LongImmediate, DecodeRcu.ShortImmediate, MiddleBits, OuterBits, Widen, SignExtend,
         DecodeRcu.IsDecOnly, DecodeRcu.IsAddrForm, DecodeRcu.Bit2, DecodeRcu.Effect, FitsShort;
    AddrFields(v, dest, dec);
    LongBack(v, immExt);
    if FitsShort(v) { ShortBack(v); }
  }

  /** The record is the same from both forms of addr exactly when the immediate is not negative. */
  lemma AddrFormsAgree(v: bv32, dest: Byte, dec: Byte, immExt: bv32)
    requires FitsShort(v) && immExt & 0x07FFFFFF == OuterBits(v) && immExt != 0
    ensures var b1 := AddrSecond(v, dest, 4, dec);
            DecodeRcu.Rcu16(AddrFirst(v), b1, 0) == DecodeRcu.Rcu16(AddrFirst(v), b1, immExt) <==> v & 0x80000000 == 0
  {
    hide AddrFirst, AddrSecond, DecodeRcu.Rcu16, OuterBits, Widen, SignExtend, AddrOf, FitsShort;
    AddrImmediatesBack(v, dest, dec, immExt);
    WholeField(v);
    NumbersTellApart(AddrSecond(v, dest, 4, dec), SignExtend(v), Widen(v));
  }

  lemma AddrHandlers(b1: Byte)
    ensures DecodeRcu.Counting(ADDR_IMMEDIATE, b1) == ADDR_IMMEDIATE || DecodeRcu.Counting(ADDR_IMMEDIATE, b1) == ADDR_IMMEDIATE + 1
  {
  }

  lemma LowHalfAdded(b1: Byte, x: bv64, y: bv64, f: Fields, m: State, p: Registers)
    requires Low32(x) == Low32(y)
    ensures ExecuteRcu.Execute(FieldsAfter(f, AddrOf(b1, x)), m, p) == ExecuteRcu.Execute(FieldsAfter(f, AddrOf(b1, y)), m, p)
  {
    hide Low32, Widen, IndexMask, Or, DecodeRcu.DecMask, DecodeRcu.DestField, DecodeRcu.InfoField, DecodeRcu.Counting, Reg, SetReg, Mixing.Add32,
         ExecuteRcu.CountedDown, ExecuteRcu.AlsoCounts;
    AddrHandlers(b1);
  }

  /** Executing either form does the same in every state: handlers take the lower half of the field. */
  lemma AddrFormsExecuteAlike(v: bv32, dest: Byte, dec: Byte, immExt: bv32, f: Fields, m: State, p: Registers)
    requires FitsShort(v) && immExt & 0x07FFFFFF == OuterBits(v) && immExt != 0
    ensures var b1 := AddrSecond(v, dest, 4, dec);
            ExecuteRcu.Execute(FieldsAfter(f, DecodeRcu.Rcu16(AddrFirst(v), b1, 0)), m, p)
            == ExecuteRcu.Execute(FieldsAfter(f, DecodeRcu.Rcu16(AddrFirst(v), b1, immExt)), m, p)
  {
    hide AddrFirst, AddrSecond, DecodeRcu.Rcu16, OuterBits, Widen, SignExtend, Low32, AddrOf, FitsShort, ExecuteRcu.Execute;
    AddrImmediatesBack(v, dest, dec, immExt);
    LowOfWidened(v);
    LowHalfAdded(AddrSecond(v, dest, 4, dec), SignExtend(v), Widen(v), f, m, p);
  }
}
