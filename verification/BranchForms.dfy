/** The encodings of a branch, and what decoding them has in common. */
module BranchForms {
  import opened Conversions
  import opened DecodeEcu
  import opened Dependencies
  import opened Handlers
  import opened InstructionEntry
  import opened Machine
  import opened Mixing
  import opened Products
  import opened SignedWords
  import opened Words
  import ExecuteEcu

  // ---- An encoder of branches ----

  /** Offsets count 16-bit units and are signed. */
  predicate FitsShort(offset: bv32) { offset + 64 < 128 }
  predicate FitsAlways(offset: bv32) { offset + 512 < 1024 }
  predicate FitsMedium(offset: bv32) { offset + 8192 < 16384 }

  function FirstByte16(cond: bv32): Byte { Narrow(0x68 | ((cond >> 3) & 0x03)) }
  function SecondByte16(cond: bv32, offset: bv32): Byte { Narrow((((cond >> 2) & 0x01) << 7) | (offset & 0x7F)) }
  function ExtensionWord(cond: bv32, nop: bool, offset: bv32): bv32 {
    0x88000000 | (((offset >> 7) << 3) & 0x07FFFFF8) | (if nop then 4 else 0) | (cond & 0x03)
  }

  function AlwaysByte0(offset: bv32): Byte { Narrow(0x6C | ((offset >> 8) & 0x03)) }

  function Byte0Of32(cond: bv32): Byte { Narrow(0x90 | ((cond >> 3) & 0x03)) }
  function Byte1Of32(cond: bv32, low: bv32): Byte { Narrow(((cond & 0x07) << 5) | (low & 0x1F)) }
  function Byte2Of32(nop: bool, low: bv32): Byte { Narrow((if nop then 8 else 0) | (low & 0x07)) }
  function Byte3Of32(offset: bv32): Byte { Narrow(offset >> 5) }

  function Target(pc: bv32, offset: bv32): bv32 { Sum32(pc, offset << 1) }

  // ---- The fields come back ----

  lemma ShortFields(cond: bv32, offset: bv32)
    requires cond < 32 && cond & 0x03 == 0 && FitsShort(offset)
    ensures IsBranch16(FirstByte16(cond)) && HasCondition(FirstByte16(cond))
    ensures ShortCond(FirstByte16(cond), SecondByte16(cond, offset)) == cond
    ensures ShortOffset(SecondByte16(cond, offset)) == SignExtend(offset << 1)
  {
  }

  lemma FirstByteFields(cond: bv32)
    ensures IsBranch16(FirstByte16(cond)) && HasCondition(FirstByte16(cond))
  {
  }

  lemma ExtensionNop(cond: bv32, nop: bool, offset: bv32)
    ensures ExtensionWord(cond, nop, offset) != 0 && ExtNop(ExtensionWord(cond, nop, offset)) == nop
  {
  }

  lemma ExtensionCond(cond: bv32, nop: bool, offset: bv32)
    ensures ExtensionWord(cond, nop, offset) & 0x03 == cond & 0x03
  {
  }

  lemma ExtensionOffset(cond: bv32, nop: bool, offset: bv32)
    ensures ExtensionWord(cond, nop, offset) & 0x07FFFFF8 == ((offset >> 7) << 3) & 0x07FFFFF8
  {
  }

  lemma SecondByteOffset(cond: bv32, offset: bv32)
    ensures Wide(SecondByte16(cond, offset)) & 0x7F == offset & 0x7F
  {
  }

  lemma CondBytes(cond: bv32, offset: bv32)
    requires cond < 32
    ensures Cond16(FirstByte16(cond), SecondByte16(cond, offset)) == cond >> 2
  {
  }

  lemma CondJoins(cond: bv32)
    ensures ((cond >> 2) << 2) | (cond & 0x03) == cond
  {
  }

  lemma LongCondBack(cond: bv32, nop: bool, offset: bv32)
    requires cond < 32
    ensures LongCond(FirstByte16(cond), SecondByte16(cond, offset), ExtensionWord(cond, nop, offset)) == cond
  {
    hide Cond16, FirstByte16, SecondByte16, ExtensionWord;
    CondBytes(cond, offset);
    ExtensionCond(cond, nop, offset);
    CondJoins(cond);
  }

  lemma OffsetJoins(offset: bv32)
    ensures ((((((offset >> 7) << 3) & 0x07FFFFF8) << 4) | (offset & 0x7F)) << 1) == offset << 1
  {
  }

  lemma LongOffsetBack(cond: bv32, nop: bool, offset: bv32)
    ensures LongOffset(SecondByte16(cond, offset), ExtensionWord(cond, nop, offset)) == Widen(offset << 1)
  {
    hide Wide, Widen, SecondByte16, ExtensionWord;
    ExtensionOffset(cond, nop, offset);
    SecondByteOffset(cond, offset);
    OffsetJoins(offset);
  }

  lemma AlwaysFields(offset: bv32)
    requires FitsAlways(offset)
    ensures IsBranch16(AlwaysByte0(offset)) && !HasCondition(AlwaysByte0(offset))
    ensures AlwaysOffset(AlwaysByte0(offset), Narrow(offset)) == Widen(offset << 1)
  {
  }

  lemma Cond32Back(cond: bv32, low: bv32)
    requires cond < 32
    ensures Cond32(Byte0Of32(cond), Byte1Of32(cond, low)) == cond
  {
  }

  lemma Byte2Back(nop: bool, low: bv32)
    ensures Nop32(Byte2Of32(nop, low)) == nop && KindOf32(Byte2Of32(nop, low)) == Narrow(low & 0x07)
  {
  }

  function SignBit(offset: bv32): bv32 { (offset >> 13) & 1 }

  lemma MediumKind(nop: bool, offset: bv32)
    ensures Byte2Of32(nop, SignBit(offset)) & 0x06 == 0
  {
  }

  lemma MediumLow(cond: bv32, offset: bv32)
    ensures Wide(Byte1Of32(cond, offset)) & 0x1F == offset & 0x1F
  {
  }

  lemma MediumMiddle(offset: bv32)
    ensures Wide(Byte3Of32(offset)) == (offset >> 5) & 0xFF
  {
  }

  lemma MediumSign(nop: bool, offset: bv32)
    ensures Wide(Byte2Of32(nop, SignBit(offset))) & 0x01 == SignBit(offset)
  {
  }

  lemma FitsMediumBits(offset: bv32)
    requires FitsMedium(offset)
    ensures offset >> 13 == 0 || offset >> 13 == 0x7FFFF
  {
  }

  lemma JoinedForward(offset: bv32)
    requires offset >> 13 == 0
    ensures Joined(0, (offset >> 5) & 0xFF, offset & 0x1F) == offset
  {
  }

  lemma JoinedBackward(offset: bv32)
    requires offset >> 13 == 0x7FFFF
    ensures Joined(0xFFFFE000, (offset >> 5) & 0xFF, offset & 0x1F) == offset
  {
  }

  lemma SignBits(offset: bv32)
    ensures offset >> 13 == 0 ==> SignBit(offset) == 0
    ensures offset >> 13 == 0x7FFFF ==> SignBit(offset) == 1
    ensures Asr18(TopBit(0)) == 0 && Asr18(TopBit(1)) == 0xFFFFE000
  {
  }

  lemma MediumJoins(offset: bv32)
    requires FitsMedium(offset)
    ensures Joined(Asr18(TopBit(SignBit(offset))), (offset >> 5) & 0xFF, offset & 0x1F) == offset
  {
    FitsMediumBits(offset);
    hide FitsMedium, Joined, Asr18, TopBit, SignBit;
    SignBits(offset);
    if offset >> 13 == 0 { JoinedForward(offset); } else { JoinedBackward(offset); }
  }

  lemma MediumOffsetBack(cond: bv32, nop: bool, offset: bv32)
    requires FitsMedium(offset)
    ensures MediumOffset(Byte1Of32(cond, offset), Byte2Of32(nop, SignBit(offset)), Byte3Of32(offset)) == offset << 1
  {
    hide Wide, Byte1Of32, Byte2Of32, Byte3Of32, SignBit, Asr18, FitsMedium, Joined, TopBit;
    MediumLow(cond, offset);
    MediumMiddle(offset);
    MediumSign(nop, offset);
    MediumJoins(offset);
  }

  // ---- What the forms decode to ----

  function Branch16(cond: bv32, offset: bv32, pc: bv32): Effects {
    Ecu16(FirstByte16(cond), SecondByte16(cond, offset), 0, pc)
  }

  function Branch48(cond: bv32, nop: bool, offset: bv32, pc: bv32): Effects {
    Ecu16(FirstByte16(cond), SecondByte16(cond, offset), ExtensionWord(cond, nop, offset), pc)
  }

  function Branch32(cond: bv32, nop: bool, offset: bv32, pc: bv32): Effects {
    Ecu32(Byte0Of32(cond), Byte1Of32(cond, offset), Byte2Of32(nop, SignBit(offset)), Byte3Of32(offset), 0, pc)
  }

  function BranchAlways16(offset: bv32, pc: bv32): Effects {
    Ecu16(AlwaysByte0(offset), Narrow(offset), 0, pc)
  }

  lemma NoNop()
    ensures !ExtNop(0)
  {
  }

  /** The same branch from each form, with the target computed at different widths. */
  lemma Branch16Is(cond: bv32, offset: bv32, pc: bv32)
    requires cond < 32 && cond & 0x03 == 0 && FitsShort(offset)
    ensures Branch16(cond, offset, pc) == Branch(cond, false, Add64(SignExtend(offset << 1), Widen(pc)))
  {
    ShortFields(cond, offset);
    NoNop();
    hide FirstByte16, SecondByte16, ShortCond, ShortOffset, SignExtend, Widen, Add64, Branch, FitsShort, ExtNop, IsBranch16, HasCondition;
  }

  lemma Branch48Is(cond: bv32, nop: bool, offset: bv32, pc: bv32)
    requires cond < 32
    ensures Branch48(cond, nop, offset, pc) == Branch(cond, nop, Add64(Widen(offset << 1), Widen(pc)))
  {
    hide FirstByte16, SecondByte16, ExtensionWord, ExtNop, LongCond, LongOffset, Widen, Add64, Branch, IsBranch16, HasCondition;
    FirstByteFields(cond);
    ExtensionNop(cond, nop, offset);
    LongCondBack(cond, nop, offset);
    LongOffsetBack(cond, nop, offset);
  }

  lemma Branch32Is(cond: bv32, nop: bool, offset: bv32, pc: bv32)
    requires cond < 32 && FitsMedium(offset)
    ensures Branch32(cond, nop, offset, pc) == Branch(cond, nop, Widen(Target(pc, offset)))
  {
    hide Byte0Of32, Byte1Of32, Byte2Of32, Byte3Of32, SignBit, Cond32, MediumOffset, Widen, Branch, Nop32, KindOf32, FitsMedium;
    Cond32Back(cond, offset);
    Byte2Back(nop, SignBit(offset));
    MediumKind(nop, offset);
    MediumOffsetBack(cond, nop, offset);
  }

  lemma BranchAlways16Is(offset: bv32, pc: bv32)
    requires FitsAlways(offset)
    ensures BranchAlways16(offset, pc) == Branch(CONDITION_T, false, Add64(Widen(offset << 1), Widen(pc)))
  {
    hide AlwaysByte0, AlwaysOffset, Narrow, Widen, Add64, Branch, FitsAlways, IsBranch16, HasCondition;
    AlwaysFields(offset);
  }

  lemma BranchesEqual(cond: bv32, nop: bool, a: bv64, b: bv64)
    ensures Branch(cond, nop, a) == Branch(cond, nop, b) <==> a == b
  {
    hide Variant, BranchInfo, FlagDependencies, Or, Widen;
    assert Branch(cond, nop, a).f2 == Set(a) && Branch(cond, nop, b).f2 == Set(b);
  }

  // ---- Widths of the target ----

  lemma LowOfSum(x: bv32, y: bv32)
    ensures Low32((x as bv64) + (y as bv64)) == x + y
  {
  }

  lemma LowOfSignedSum(x: bv32, y: bv32)
    ensures Low32(((x as bv64) | 0xFFFFFFFF00000000) + (y as bv64)) == x + y
  {
  }

  lemma PlusWritten(x: bv64, y: bv64)
    ensures Add64(x, y) == x + y
  {
  }

  lemma SumWritten(x: bv32, y: bv32)
    ensures Sum32(y, x) == x + y
  {
  }

  lemma LowOfPlainPlus(x: bv32, y: bv32)
    ensures Low32(Add64(x as bv64, y as bv64)) == Sum32(y, x)
  {
    hide Low32, Add64, Sum32;
    LowOfSum(x, y);
    PlusWritten(x as bv64, y as bv64);
    SumWritten(x, y);
  }

  lemma LowOfExtendedPlus(x: bv32, y: bv32)
    ensures Low32(Add64((x as bv64) | 0xFFFFFFFF00000000, y as bv64)) == Sum32(y, x)
  {
    hide Low32, Add64, Sum32;
    LowOfSignedSum(x, y);
    PlusWritten((x as bv64) | 0xFFFFFFFF00000000, y as bv64);
    SumWritten(x, y);
  }

  lemma LowOfPlus(x: bv32, y: bv32)
    ensures Low32(Add64(Widen(x), Widen(y))) == Sum32(y, x)
    ensures Low32(Add64(SignExtend(x), Widen(y))) == Sum32(y, x)
  {
    hide Low32, Add64, Sum32;
    LowOfPlainPlus(x, y);
    LowOfExtendedPlus(x, y);
  }

  lemma WidenedLowIsLowHalf(p: bv64)
    ensures Widen(Low32(p)) == LowHalf(p)
  {
  }

  lemma SmallNum(p: bv64)
    ensures p == Widen(Low32(p)) <==> Num(p) < TWO_32
  {
    hide Num, Widen, Low32, LowHalf, HighHalf;
    WidenedLowIsLowHalf(p);
    HalvesNum(p);
    if Num(p) < TWO_32 { SameNum(p, LowHalf(p)); }
  }

  lemma SumFits(wide: bv64, x: bv32, pc: bv32)
    requires Low32(Add64(wide, Widen(pc))) == Sum32(pc, x)
    ensures Add64(wide, Widen(pc)) == Widen(Sum32(pc, x))
            <==> Num(wide) + Num32(pc) < TWO_32 || TWO_64 <= Num(wide) + Num32(pc) < TWO_64 + TWO_32
  {
    hide Num, Num32, Add64, Low32, Sum32;
    NumWiden(pc);
    AddNum(wide, Widen(pc));
    SmallNum(Add64(wide, Widen(pc)));
  }

  lemma WholeSums(x: bv32, pc: bv32)
    ensures Add64(Widen(x), Widen(pc)) == Widen(Sum32(pc, x)) <==> Num32(x) + Num32(pc) < TWO_32
    ensures Add64(SignExtend(x), Widen(pc)) == Widen(Sum32(pc, x)) <==> 0 <= Signed(x) + Num32(pc) < TWO_32
  {
    hide Num, Num32, Add64, Low32, Sum32;
    LowOfPlus(x, pc);
    NumWiden(x);
    NumSigned(x);
    NumWiden(pc);
    SumFits(Widen(x), x, pc);
    SumFits(SignExtend(x), x, pc);
  }

  lemma SignsEqual(x: bv32)
    ensures SignExtend(x) == Widen(x) <==> x & 0x80000000 == 0
  {
  }

  lemma SumsEqual(a: bv64, b: bv64, c: bv64)
    ensures Add64(a, c) == Add64(b, c) <==> a == b
  {
    hide Add64, Sub64;
    AddUndone64(a, c);
    AddUndone64(b, c);
  }

  lemma ShortSign(offset: bv32)
    requires FitsShort(offset)
    ensures (offset << 1) & 0x80000000 == 0 <==> offset & 0x80000000 == 0
  {
  }

  /** The 32-bit form adds at 32 bits, the 48-bit form at 64, and reads a backward offset as a large
      forward one: their records are the same exactly when that sum stays inside 32 bits. */
  lemma MediumIsLong(cond: bv32, nop: bool, offset: bv32, pc: bv32)
    requires cond < 32 && FitsMedium(offset)
    ensures Branch32(cond, nop, offset, pc) == Branch48(cond, nop, offset, pc) <==> Num32(offset << 1) + Num32(pc) < TWO_32
  {
    hide Num32, Widen, Add64, Sum32, Branch, Branch32, Branch48, FitsMedium;
    Branch32Is(cond, nop, offset, pc);
    Branch48Is(cond, nop, offset, pc);
    WholeSums(offset << 1, pc);
    BranchesEqual(cond, nop, Widen(Target(pc, offset)), Add64(Widen(offset << 1), Widen(pc)));
  }

  /** The 16-bit form extends the sign to 64 bits: its record is the 48-bit form's exactly for forward branches. */
  lemma ShortIsLong(cond: bv32, offset: bv32, pc: bv32)
    requires cond < 32 && cond & 0x03 == 0 && FitsShort(offset)
    ensures Branch16(cond, offset, pc) == Branch48(cond, false, offset, pc) <==> offset & 0x80000000 == 0
  {
    hide Widen, SignExtend, Add64, Branch, Branch16, Branch48, FitsShort;
    Branch16Is(cond, offset, pc);
    Branch48Is(cond, false, offset, pc);
    SignsEqual(offset << 1);
    ShortSign(offset);
    SumsEqual(SignExtend(offset << 1), Widen(offset << 1), Widen(pc));
    BranchesEqual(cond, false, Add64(SignExtend(offset << 1), Widen(pc)), Add64(Widen(offset << 1), Widen(pc)));
  }

  /** The 16-bit and the 32-bit form: exactly when the target, with the offset's sign, needs no wrapping. */
  lemma ShortIsMedium(cond: bv32, offset: bv32, pc: bv32)
    requires cond < 32 && cond & 0x03 == 0 && FitsShort(offset) && FitsMedium(offset)
    ensures Branch16(cond, offset, pc) == Branch32(cond, false, offset, pc) <==> 0 <= Signed(offset << 1) + Num32(pc) < TWO_32
  {
    hide Num32, Signed, Widen, SignExtend, Add64, Sum32, Branch, Branch16, Branch32, FitsShort, FitsMedium;
    Branch16Is(cond, offset, pc);
    Branch32Is(cond, false, offset, pc);
    WholeSums(offset << 1, pc);
    BranchesEqual(cond, false, Add64(SignExtend(offset << 1), Widen(pc)), Widen(Target(pc, offset)));
  }

  /** The short form without a condition always gives the 48-bit form's record. */
  lemma AlwaysIsLong(offset: bv32, pc: bv32)
    requires FitsAlways(offset)
    ensures BranchAlways16(offset, pc) == Branch48(CONDITION_T, false, offset, pc)
  {
    hide Branch, BranchAlways16, Branch48, FitsAlways, Add64, Widen;
    BranchAlways16Is(offset, pc);
    Branch48Is(CONDITION_T, false, offset, pc);
  }

  /** A branch to the instruction before, in instruction memory: three forms, two of which differ from the third. */
  lemma BackwardFormsDiffer(cond: bv32)
    requires cond < 32 && cond & 0x03 == 0
    ensures Branch16(cond, 0xFFFFFFFF, 0x20300000) != Branch48(cond, false, 0xFFFFFFFF, 0x20300000)
    ensures Branch32(cond, false, 0xFFFFFFFF, 0x20300000) != Branch48(cond, false, 0xFFFFFFFF, 0x20300000)
  {
    hide Branch16, Branch32, Branch48;
    ShortIsLong(cond, 0xFFFFFFFF, 0x20300000);
    MediumIsLong(cond, false, 0xFFFFFFFF, 0x20300000);
    assert Num32(0xFFFFFFFE) + Num32(0x20300000) >= TWO_32;
  }

  // ---- Executing the forms ----

  /** A branch goes where the lower half of the field says. */
  lemma LowHalfDecides(cond: bv32, nop: bool, a: bv64, b: bv64, f: Fields, m: State, p: Registers, cc: bv32)
    requires Low32(a) == Low32(b)
    ensures ExecuteEcu.Execute(FieldsAfter(f, Branch(cond, nop, a)), m, p, cc) == ExecuteEcu.Execute(FieldsAfter(f, Branch(cond, nop, b)), m, p, cc)
  {
    hide Low32, Widen, BranchInfo, FlagDependencies, Or, ExecuteEcu.TestCondition, ExecuteEcu.Nop, ExecuteEcu.Always, ExecuteEcu.VariantOf, Reg;
    VariantsBranch(cond == CONDITION_T, nop);
    hide Variant;
  }

  lemma VariantsBranch(always: bool, nop: bool)
    ensures BRA <= Variant(BRA, always, nop) < JMP_INDIRECT
  {
  }

  function Run(e: Effects, f: Fields, m: State, p: Registers, cc: bv32): State {
    ExecuteEcu.Execute(FieldsAfter(f, e), m, p, cc)
  }

  /** Wherever an offset, a condition and the delay slots fit two forms, executing either does the same in
      every state: unless packets are being skipped or the condition fails, execution goes on at the program
      counter plus the offset modulo 2^32, after the delay slots. */
  lemma FormsExecuteAlike(cond: bv32, nop: bool, offset: bv32, pc: bv32, f: Fields, m: State, p: Registers, cc: bv32)
    requires cond < 32
    ensures var long := Run(Branch48(cond, nop, offset, pc), f, m, p, cc);
            && (FitsMedium(offset) ==> Run(Branch32(cond, nop, offset, pc), f, m, p, cc) == long)
            && (cond & 0x03 == 0 && !nop && FitsShort(offset) ==> Run(Branch16(cond, offset, pc), f, m, p, cc) == long)
            && (cond == CONDITION_T && !nop && FitsAlways(offset) ==> Run(BranchAlways16(offset, pc), f, m, p, cc) == long)
            && long == if m.ecuSkipCounter == 0 && ExecuteEcu.TestCondition(cond, cc)
                       then m.(pcfetchnext := Target(pc, offset), ecuSkipCounter := if nop then 1 else 3) else m
  {
    hide Branch, Branch16, Branch32, Branch48, BranchAlways16, Add64, Widen, SignExtend, Low32, Sum32, FitsShort, FitsMedium, FitsAlways,
         ExecuteEcu.Execute, ExecuteEcu.TestCondition;
    Branch48Is(cond, nop, offset, pc);
    LowOfPlus(offset << 1, pc);
    LowOfWidened(Target(pc, offset));
    var long := Add64(Widen(offset << 1), Widen(pc));
    LongGoes(cond, nop, long, f, m, p, cc);
    if FitsMedium(offset) {
      Branch32Is(cond, nop, offset, pc);
      LowHalfDecides(cond, nop, Widen(Target(pc, offset)), long, f, m, p, cc);
    }
    if cond & 0x03 == 0 && !nop && FitsShort(offset) {
      Branch16Is(cond, offset, pc);
      LowHalfDecides(cond, nop, Add64(SignExtend(offset << 1), Widen(pc)), long, f, m, p, cc);
    }
    if cond == CONDITION_T && !nop && FitsAlways(offset) { BranchAlways16Is(offset, pc); }
  }

  lemma NopOfVariant(always: bool, nop: bool)
    ensures ExecuteEcu.Nop(ExecuteEcu.VariantOf(Variant(BRA, always, nop), BRA)) == nop
  {
  }

  lemma AlwaysHolds(cc: bv32)
    ensures ExecuteEcu.TestCondition(CONDITION_T, cc)
  {
  }

  lemma AlwaysOfVariant(always: bool, nop: bool)
    ensures ExecuteEcu.Always(ExecuteEcu.VariantOf(Variant(BRA, always, nop), BRA)) == always
  {
  }

  lemma LongGoes(cond: bv32, nop: bool, address: bv64, f: Fields, m: State, p: Registers, cc: bv32)
    ensures Run(Branch(cond, nop, address), f, m, p, cc)
            == if m.ecuSkipCounter == 0 && ExecuteEcu.TestCondition(cond, cc)
               then m.(pcfetchnext := Low32(address), ecuSkipCounter := if nop then 1 else 3) else m
  {
    VariantsBranch(cond == CONDITION_T, nop);
    NopOfVariant(cond == CONDITION_T, nop);
    AlwaysOfVariant(cond == CONDITION_T, nop);
    AlwaysHolds(cc);
    LowOfWidened(cond);
    hide Variant, Low32, Widen, BranchInfo, FlagDependencies, Or, ExecuteEcu.TestCondition, ExecuteEcu.Nop, ExecuteEcu.Always,
         ExecuteEcu.VariantOf, Reg;
  }

  // ---- Absolute targets ----

  function AbsoluteBits(target: bv32): bv32 { ((target >> 14) << 9) & 0x7FFFE00 }
  function AbsoluteByte1(cond: bv32, target: bv32): Byte { Byte1Of32(cond, target >> 1) }
  function AbsoluteByte3(target: bv32): Byte { Narrow(target >> 6) }

  lemma GatheredBack(target: bv32)
    requires target & 1 == 0
    ensures Gathered(AbsoluteBits(target), (target >> 6) & 0xFF, (target >> 1) & 0x1F) == Widen(target)
  {
  }

  lemma AbsoluteBytes(cond: bv32, target: bv32)
    ensures Wide(AbsoluteByte3(target)) == (target >> 6) & 0xFF
    ensures Wide(AbsoluteByte1(cond, target)) & 0x1F == (target >> 1) & 0x1F
  {
  }

  lemma BaseMoves(x: bv64)
    ensures Add64(x, IRAM_BASE) != x && Add64(x, IROM_BASE) != x
  {
  }

  /** Kinds 2 and 3 jump, 4 and 5 call; the lowest bit matters only without an extension word. */
  predicate IsAbsolute(kind: Byte) { 2 <= kind <= 5 }
  function AbsoluteByte2(kind: Byte, nop: bool): Byte { kind | (if nop then 8 else 0) }

  lemma AbsoluteFields(kind: Byte, nop: bool)
    requires IsAbsolute(kind)
    ensures KindOf32(AbsoluteByte2(kind, nop)) == kind && Nop32(AbsoluteByte2(kind, nop)) == nop
    ensures AbsoluteByte2(kind, nop) & 0x06 != 0
  {
  }

  function JumpTo(kind: Byte, cond: bv32, nop: bool, address: bv64): Effects {
    if kind <= 3 then Branch(cond, nop, address) else Jsr(cond, nop, address)
  }

  lemma TargetBack(cond: bv32, target: bv32, b2: Byte, immExt: bv32)
    requires target & 1 == 0 && immExt & 0x7FFFE00 == AbsoluteBits(target)
    ensures AbsoluteTarget(AbsoluteByte1(cond, target), b2, AbsoluteByte3(target), immExt) == Widen(target) <==> immExt != 0
  {
    hide Gathered, AbsoluteBits, AbsoluteByte1, AbsoluteByte3, Wide, Widen, Add64, LowestBit;
    GatheredBack(target);
    AbsoluteBytes(cond, target);
    BaseMoves(Widen(target));
  }

  lemma JumpsEqual(kind: Byte, cond: bv32, nop: bool, a: bv64, b: bv64)
    ensures JumpTo(kind, cond, nop, a) == JumpTo(kind, cond, nop, b) <==> a == b
  {
    hide Variant, BranchInfo, JsrInfo, FlagDependencies, Or, Widen;
    assert JumpTo(kind, cond, nop, a).f2 == Set(a) && JumpTo(kind, cond, nop, b).f2 == Set(b);
  }

  /** A jump or call to an even 32-bit address decodes to itself exactly when the extension word is not
      zero, which the mark of an extension word guarantees: handler, condition, delay slots and target. */
  lemma AbsoluteTargetBack(kind: Byte, cond: bv32, nop: bool, target: bv32, immExt: bv32, pc: bv32)
    requires IsAbsolute(kind) && cond < 32 && target & 1 == 0 && immExt & 0x7FFFE00 == AbsoluteBits(target)
    ensures Ecu32(Byte0Of32(cond), AbsoluteByte1(cond, target), AbsoluteByte2(kind, nop), AbsoluteByte3(target), immExt, pc)
            == JumpTo(kind, cond, nop, Widen(target))
            <==> immExt != 0
  {
    hide Byte0Of32, Byte1Of32, AbsoluteByte2, AbsoluteByte3, AbsoluteBits, AbsoluteTarget, Branch, Jsr, Cond32, Nop32, KindOf32, Widen,
         MediumOffset, Register;
    var b2 := AbsoluteByte2(kind, nop);
    Cond32Back(cond, target >> 1);
    AbsoluteFields(kind, nop);
    TargetBack(cond, target, b2, immExt);
    JumpsEqual(kind, cond, nop, AbsoluteTarget(AbsoluteByte1(cond, target), b2, AbsoluteByte3(target), immExt), Widen(target));
  }
}
