/** The branch decoder: 16-bit forms, alone or after a 32-bit extension word, and 32-bit forms. */
module DecodeEcu {
  import opened Conversions
  import opened Dependencies
  import opened Handlers
  import opened InstructionEntry
  import opened Mixing
  import opened Words

  const CONDITION_T: bv32 := 0x11

  const INFO_ECU: bv32 := 0x00000004
  const INFO_NEVERCOMPILE: bv32 := 0x40000000
  const INFO_EXCEPTION: bv32 := 0x20000000
  const INFO_NEEDS_PCFETCHNEXT: bv32 := 0x10000000
  const INFO_BRANCH_ALWAYS: bv32 := 0x08000000
  const INFO_BRANCH_CONDITIONAL: bv32 := 0x04000000
  const INFO_BRANCH_NOP: bv32 := 0x02000000

  const IROM_BASE: bv64 := 0x20200000
  const IRAM_BASE: bv64 := 0x20300000

  /** Arithmetic right shifts, by the amounts the decoder uses. */
  function Asr18(x: bv32): bv32 { if x & 0x80000000 != 0 then (x >> 18) | 0xFFFFC000 else x >> 18 }
  function Asr22(x: bv32): bv32 { if x & 0x80000000 != 0 then (x >> 22) | 0xFFFFFC00 else x >> 22 }
  function Asr24(x: bv32): bv32 { if x & 0x80000000 != 0 then (x >> 24) | 0xFFFFFF00 else x >> 24 }

  // ---- The flags that conditions depend on ----

  function LowerFlags(c: bv32): bv32 {
    if c == 0x00 || c == 0x04 then FLAG_Z
    else if c == 0x01 then FLAG_C0Z
    else if c == 0x02 then FLAG_C1Z
    else if c == 0x03 || c == 0x05 then FLAG_C
    else if c == 0x06 || c == 0x07 then FLAG_V
    else if c == 0x08 then FLAG_N | FLAG_V
    else if c == 0x09 || c == 0x0A then FLAG_MV
    else if c == 0x0B || c == 0x0D then FLAG_C | FLAG_Z
    else if c == 0x0C then FLAG_N | FLAG_V | FLAG_Z
    else FLAG_N
  }

  function UpperFlags(c: bv32): bv32 {
    if c == 0x10 then FLAG_N | FLAG_V | FLAG_Z
    else if c == 0x12 || c == 0x13 then FLAG_MODMI
    else if c == 0x14 then FLAG_N | FLAG_V
    else if c == 0x15 || c == 0x16 then FLAG_MODGE
    else if c == 0x18 then FLAG_C0Z
    else if c == 0x1B || c == 0x1D then FLAG_CP0
    else if c == 0x1C then FLAG_C1Z
    else if c == 0x1E || c == 0x1F then FLAG_CP1
    else 0 // always, or not used
  }

  /** The decoder's table, which has 32 entries. */
  function FlagDependencies(c: bv32): bv32 { if c < 0x10 then LowerFlags(c) else UpperFlags(c) }

  // ---- What the forms decode to ----

  /** Handlers of one kind come in fours: always, always without delay slots, conditional, conditional without. */
  function Variant(first: bv64, always: bool, nop: bool): bv64 {
    if always then (if nop then first + 1 else first) else (if nop then first + 3 else first + 2)
  }

  function BranchInfo(always: bool, nop: bool): bv32 {
    Or(if always then INFO_BRANCH_ALWAYS else INFO_BRANCH_CONDITIONAL, if nop then INFO_BRANCH_NOP else 0)
  }

  /** The subroutine jumps with delay slots also need the address to return to. */
  function JsrInfo(always: bool, nop: bool): bv32 {
    Or(BranchInfo(always, nop), if nop then 0 else INFO_NEEDS_PCFETCHNEXT)
  }

  /** A branch or jump of one of the kinds. */
  function Going(handler: bv64, cond: bv32, address: bv64, info: bv32, scalarIn: Update, miscOut: Update): Effects {
    Effects(Set(handler), Set(Widen(cond)), Set(address), Leave, Leave, Or(INFO_ECU, info),
            scalarIn, Replace(FlagDependencies(cond)), Keep, miscOut)
  }

  function Branch(cond: bv32, nop: bool, address: bv64): Effects {
    Going(Variant(BRA, cond == CONDITION_T, nop), cond, address, BranchInfo(cond == CONDITION_T, nop), Keep, Keep)
  }

  function Jsr(cond: bv32, nop: bool, address: bv64): Effects {
    Going(Variant(JSR, cond == CONDITION_T, nop), cond, address, JsrInfo(cond == CONDITION_T, nop), Keep, Replace(MASK_RZ))
  }

  function JmpIndirect(cond: bv32, nop: bool, register: bv32): Effects {
    Going(Variant(JMP_INDIRECT, cond == CONDITION_T, nop), cond, Widen(register), BranchInfo(cond == CONDITION_T, nop),
          Replace(ScalarMask(register)), Keep)
  }

  function JsrIndirect(cond: bv32, nop: bool, register: bv32): Effects {
    Going(Variant(JSR_INDIRECT, cond == CONDITION_T, nop), cond, Widen(register), JsrInfo(cond == CONDITION_T, nop),
          Replace(ScalarMask(register)), Replace(MASK_RZ))
  }

  function Return(handler: bv64, cond: bv32, info: bv32, register: bv32): Effects {
    Effects(Set(handler), Set(Widen(cond)), Leave, Leave, Leave, Or(INFO_ECU, info),
            Keep, Replace(Or(FlagDependencies(cond), register)), Keep, Keep)
  }

  const HALTING := Effects(Set(HALT), Set(0), Leave, Leave, Leave, Or(INFO_ECU, Or(INFO_NEVERCOMPILE, INFO_EXCEPTION)), Keep, Keep, Keep, Keep)

  function Cond16(b0: Byte, b1: Byte): bv32 { ((Wide(b0) & 0x03) << 1) | (Wide(b1) >> 7) }
  function Cond32(b0: Byte, b1: Byte): bv32 { ((Wide(b0) & 0x03) << 3) | (Wide(b1) >> 5) }

  function ShortCond(b0: Byte, b1: Byte): bv32 { Cond16(b0, b1) << 2 }
  function ShortOffset(b1: Byte): bv64 { SignExtend(Asr24((Wide(b1) & 0x7F) << 25)) }
  function LongCond(b0: Byte, b1: Byte, immExt: bv32): bv32 { (Cond16(b0, b1) << 2) | (immExt & 0x03) }
  function LongOffset(b1: Byte, immExt: bv32): bv64 { Widen((((immExt & 0x07FFFFF8) << 4) | (Wide(b1) & 0x7F)) << 1) }
  function AlwaysOffset(b0: Byte, b1: Byte): bv64 { Widen((Asr22((Wide(b0) & 0x03) << 30) | Wide(b1)) << 1) }
  predicate ExtNop(immExt: bv32) { immExt & 0x04 != 0 }

  predicate IsBranch16(b0: Byte) { b0 & 0x0C != 0 }
  predicate HasCondition(b0: Byte) { b0 & 0x04 == 0 }

  // The 16-bit branches. With an extension word the same two bytes are a 48-bit branch.
  function BranchCond(b0: Byte, b1: Byte, immExt: bv32): bv32 {
    if !HasCondition(b0) then CONDITION_T else if immExt == 0 then ShortCond(b0, b1) else LongCond(b0, b1, immExt)
  }

  function BranchOffset(b0: Byte, b1: Byte, immExt: bv32): bv64 {
    if !HasCondition(b0) then AlwaysOffset(b0, b1) else if immExt == 0 then ShortOffset(b1) else LongOffset(b1, immExt)
  }

  predicate BranchNop(b0: Byte, immExt: bv32) { HasCondition(b0) && ExtNop(immExt) }

  function Branch16Effects(b0: Byte, b1: Byte, immExt: bv32, pc: bv32): Effects {
    Branch(BranchCond(b0, b1, immExt), BranchNop(b0, immExt), Add64(BranchOffset(b0, b1, immExt), Widen(pc)))
  }

  function ReturnKind(b1: Byte): Byte { (b1 & 0x07) >> 1 }
  predicate LowestBit(b1: Byte) { b1 & 0x01 != 0 }

  /** RTS, RTI and HALT. */
  function ReturnEffects(b0: Byte, b1: Byte): Effects {
    var cond, nop, kind := Cond32(b0, b1), LowestBit(b1), ReturnKind(b1);
    if b1 == 0x01 then HALTING
    else if kind == 0 then
      Return(Variant(RTS, cond == CONDITION_T, nop), cond, BranchInfo(cond == CONDITION_T, nop), MASK_RZ)
    else if kind == 1 then Return(if nop then RTI1 + 1 else RTI1, cond, BranchInfo(false, nop), MASK_RZI1)
    else if kind == 2 then Return(if nop then RTI2 + 1 else RTI2, cond, BranchInfo(false, nop), MASK_RZI2)
    else Effects(Leave, Set(Widen(cond)), Leave, Leave, Leave, INFO_ECU, Keep, Keep, Keep, Keep)
  }

  function Ecu16(b0: Byte, b1: Byte, immExt: bv32, pc: bv32): Effects {
    if IsBranch16(b0) then Branch16Effects(b0, b1, immExt, pc) else ReturnEffects(b0, b1)
  }

  function Sum32(x: bv32, y: bv32): bv32 { x + y }
  function TopBit(x: bv32): bv32 { x << 31 }
  function Joined(sign: bv32, middle: bv32, low: bv32): bv32 { sign | ((middle << 5) | low) }

  function MediumOffset(b1: Byte, b2: Byte, b3: Byte): bv32 {
    Joined(Asr18(TopBit(Wide(b2) & 0x01)), Wide(b3), Wide(b1) & 0x1F) << 1
  }

  function Gathered(high: bv32, middle: bv32, low: bv32): bv64 {
    (Widen(high << 4) | (Widen(middle) << 5) | Widen(low)) << 1
  }

  function GatheredTarget(b1: Byte, b3: Byte, immExt: bv32): bv64 {
    Gathered(immExt & 0x7FFFE00, Wide(b3), Wide(b1) & 0x1F)
  }

  /** An absolute target: with an extension word all of it, without one a place in instruction RAM or ROM. */
  function AbsoluteTarget(b1: Byte, b2: Byte, b3: Byte, immExt: bv32): bv64 {
    var address := GatheredTarget(b1, b3, immExt);
    if immExt != 0 then address else if LowestBit(b2) then Add64(address, IRAM_BASE) else Add64(address, IROM_BASE)
  }

  function KindOf32(b2: Byte): Byte { b2 & 0x07 }
  predicate Nop32(b2: Byte) { b2 & 0x08 != 0 }
  function Register(b1: Byte): bv32 { Wide(b1) & 0x1F }

  function Ecu32(b0: Byte, b1: Byte, b2: Byte, b3: Byte, immExt: bv32, pc: bv32): Effects {
    var cond, nop, kind := Cond32(b0, b1), Nop32(b2), KindOf32(b2);
    if b2 & 0x06 == 0 then Branch(cond, nop, Widen(Sum32(pc, MediumOffset(b1, b2, b3))))
    else if kind <= 3 then Branch(cond, nop, AbsoluteTarget(b1, b2, b3, immExt))
    else if kind <= 5 then Jsr(cond, nop, AbsoluteTarget(b1, b2, b3, immExt))
    else if kind == 6 then JmpIndirect(cond, nop, Register(b1))
    else JsrIndirect(cond, nop, Register(b1))
  }

  // ---- The decoders ----

  /** Which of the four handlers, and what the packet is told. */
  method Choose(entry: Entry, first: bv64, always: bool, nop: bool)
    modifies entry`packetInfo, entry.ecu`handler
    ensures entry.ecu.handler == Variant(first, always, nop)
    ensures entry.packetInfo == Or(old(entry.packetInfo), BranchInfo(always, nop))
  {
    hide Or;
    InfoBits();
    if always {
      if nop {
        entry.ecu.handler := first + 1;
        entry.packetInfo := Or(entry.packetInfo, Or(INFO_BRANCH_ALWAYS, INFO_BRANCH_NOP));
      } else {
        entry.ecu.handler := first;
        entry.packetInfo := Or(entry.packetInfo, INFO_BRANCH_ALWAYS);
      }
    } else {
      if nop {
        entry.ecu.handler := first + 3;
        entry.packetInfo := Or(entry.packetInfo, Or(INFO_BRANCH_CONDITIONAL, INFO_BRANCH_NOP));
      } else {
        entry.ecu.handler := first + 2;
        entry.packetInfo := Or(entry.packetInfo, INFO_BRANCH_CONDITIONAL);
      }
    }
  }

  method ChooseJsr(entry: Entry, first: bv64, always: bool, nop: bool)
    modifies entry`packetInfo, entry.ecu`handler
    ensures entry.ecu.handler == Variant(first, always, nop)
    ensures entry.packetInfo == Or(old(entry.packetInfo), JsrInfo(always, nop))
  {
    hide Or, Variant;
    InfoBits();
    ghost var before := entry.packetInfo;
    OrAssociates(before, BranchInfo(always, nop), INFO_NEEDS_PCFETCHNEXT);
    OrNothing(BranchInfo(always, nop));
    Choose(entry, first, always, nop);
    if !nop { entry.packetInfo := Or(entry.packetInfo, INFO_NEEDS_PCFETCHNEXT); }
  }

  lemma InfoBits()
    ensures Or(INFO_BRANCH_ALWAYS, 0) == INFO_BRANCH_ALWAYS && Or(INFO_BRANCH_CONDITIONAL, 0) == INFO_BRANCH_CONDITIONAL
  {
  }

  /** Every condition is an index into the table. */
  lemma ConditionsBelow32(b0: Byte, b1: Byte, immExt: bv32)
    ensures ShortCond(b0, b1) < 32 && LongCond(b0, b1, immExt) < 32 && Cond32(b0, b1) < 32
  {
  }

  lemma SameCondition(x: bv32, y: bv32)
    ensures Widen(x) == Widen(y) <==> x == y
    ensures Low32(Widen(x)) == x
  {
  }

  method ReadBranch(ecu: Slot, b0: Byte, b1: Byte, immExt: bv32)
    modifies ecu`f1, ecu`f2
    ensures ecu.f1 == Widen(BranchCond(b0, b1, immExt)) && ecu.f2 == BranchOffset(b0, b1, immExt)
  {
    hide HasCondition, ShortCond, LongCond, ShortOffset, LongOffset, AlwaysOffset, Widen;
    if HasCondition(b0) {
      if immExt == 0 {
        ecu.f1 := Widen(ShortCond(b0, b1));
        ecu.f2 := ShortOffset(b1);
      } else {
        ecu.f1 := Widen(LongCond(b0, b1, immExt));
        ecu.f2 := LongOffset(b1, immExt);
      }
    } else {
      ecu.f1 := Widen(CONDITION_T);
      ecu.f2 := AlwaysOffset(b0, b1);
    }
  }

  lemma BranchSets(cond: bv32, nop: bool, address: bv64)
    ensures var e := Branch(cond, nop, address);
            && e.f0 == Set(Variant(BRA, cond == CONDITION_T, nop)) && e.f1 == Set(Widen(cond)) && e.f2 == Set(address) && e.f3 == e.f4 == Leave
            && e.scalarIn == Keep && e.miscIn == Replace(FlagDependencies(cond)) && e.scalarOut == e.miscOut == Keep
            && e.info == Or(INFO_ECU, BranchInfo(cond == CONDITION_T, nop))
  {
    hide Or, Variant, Widen, FlagDependencies, BranchInfo;
  }

  method DecodeBranch16(entry: Entry, b0: Byte, b1: Byte, immExt: bv32)
    modifies entry`packetInfo, entry.ecu
    ensures entry.ecu.Decoded(Branch16Effects(b0, b1, immExt, entry.pcexec))
    ensures entry.packetInfo == Or(old(entry.packetInfo), Branch16Effects(b0, b1, immExt, entry.pcexec).info)
    ensures entry.ecu.f1 == Widen(BranchCond(b0, b1, immExt))
  {
    hide Or, Branch, BranchCond, BranchOffset, BranchNop, Widen, Low32, Add64, FlagDependencies, Variant, BranchInfo, Pick, Updated;
    Settings();
    var ecu := entry.ecu;
    ghost var cond, nop := BranchCond(b0, b1, immExt), BranchNop(b0, immExt);
    SameCondition(cond, CONDITION_T);
    BranchSets(cond, nop, Add64(BranchOffset(b0, b1, immExt), Widen(entry.pcexec)));
    OrAssociates(entry.packetInfo, INFO_ECU, BranchInfo(cond == CONDITION_T, nop));
    entry.packetInfo := Or(entry.packetInfo, INFO_ECU);
    ReadBranch(ecu, b0, b1, immExt);
    Choose(entry, BRA, ecu.f1 == Widen(CONDITION_T), BranchNop(b0, immExt));
    ecu.miscIn := FlagDependencies(Low32(ecu.f1));
    ecu.f2 := Add64(ecu.f2, Widen(entry.pcexec));
  }

  method DecodeReturn(entry: Entry, b0: Byte, b1: Byte)
    modifies entry`packetInfo, entry.ecu
    ensures entry.ecu.Decoded(ReturnEffects(b0, b1))
    ensures entry.packetInfo == Or(old(entry.packetInfo), ReturnEffects(b0, b1).info)
  {
    hide Or, Widen, Cond32, FlagDependencies, Variant, BranchInfo, ReturnKind, LowestBit, Pick, Updated;
    Settings();
    var ecu, cond, nop, kind := entry.ecu, Cond32(b0, b1), LowestBit(b1), ReturnKind(b1);
    if b1 != 0x01 {
      if kind == 0 {
        Returning(entry, RTS, cond, cond == CONDITION_T, nop, MASK_RZ);
      } else if kind == 1 {
        Interrupted(entry, RTI1, cond, nop, MASK_RZI1);
      } else if kind == 2 {
        Interrupted(entry, RTI2, cond, nop, MASK_RZI2);
      } else {
        entry.packetInfo := Or(entry.packetInfo, INFO_ECU);
        ecu.f1 := Widen(cond);
      }
    } else {
      OrAssociates(entry.packetInfo, INFO_ECU, Or(INFO_NEVERCOMPILE, INFO_EXCEPTION));
      entry.packetInfo := Or(entry.packetInfo, INFO_ECU);
      ecu.handler := HALT;
      entry.packetInfo := Or(entry.packetInfo, Or(INFO_NEVERCOMPILE, INFO_EXCEPTION));
      ecu.f1 := 0;
    }
  }

  method Returning(entry: Entry, first: bv64, cond: bv32, always: bool, nop: bool, register: bv32)
    modifies entry`packetInfo, entry.ecu
    ensures var e := Return(Variant(first, always, nop), cond, BranchInfo(always, nop), register);
            entry.ecu.Decoded(e) && entry.packetInfo == Or(old(entry.packetInfo), e.info)
  {
    hide Or, Widen, FlagDependencies, Variant, BranchInfo, Pick, Updated;
    Settings();
    OrAssociates(entry.packetInfo, INFO_ECU, BranchInfo(always, nop));
    entry.packetInfo := Or(entry.packetInfo, INFO_ECU);
    entry.ecu.f1 := Widen(cond);
    entry.ecu.miscIn := Or(FlagDependencies(cond), register);
    Choose(entry, first, always, nop);
  }

  /** RTI has no variants of its own for a condition that always holds. */
  method ChooseRti(entry: Entry, first: bv64, nop: bool)
    modifies entry`packetInfo, entry.ecu`handler
    ensures entry.ecu.handler == if nop then first + 1 else first
    ensures entry.packetInfo == Or(old(entry.packetInfo), BranchInfo(false, nop))
  {
    hide Or, BranchInfo;
    InfoWords();
    if nop {
      entry.ecu.handler := first + 1;
      entry.packetInfo := Or(entry.packetInfo, Or(INFO_BRANCH_CONDITIONAL, INFO_BRANCH_NOP));
    } else {
      entry.ecu.handler := first;
      entry.packetInfo := Or(entry.packetInfo, INFO_BRANCH_CONDITIONAL);
    }
  }

  method Interrupted(entry: Entry, first: bv64, cond: bv32, nop: bool, register: bv32)
    modifies entry`packetInfo, entry.ecu
    ensures var e := Return(if nop then first + 1 else first, cond, BranchInfo(false, nop), register);
            entry.ecu.Decoded(e) && entry.packetInfo == Or(old(entry.packetInfo), e.info)
  {
    hide Or, Widen, FlagDependencies, BranchInfo, Pick, Updated;
    Settings();
    OrAssociates(entry.packetInfo, INFO_ECU, BranchInfo(false, nop));
    entry.packetInfo := Or(entry.packetInfo, INFO_ECU);
    entry.ecu.f1 := Widen(cond);
    entry.ecu.miscIn := Or(FlagDependencies(cond), register);
    ChooseRti(entry, first, nop);
  }

  lemma InfoWords()
    ensures BranchInfo(false, true) == Or(INFO_BRANCH_CONDITIONAL, INFO_BRANCH_NOP) && BranchInfo(false, false) == INFO_BRANCH_CONDITIONAL
  {
  }

  method Decode16(entry: Entry, b0: Byte, b1: Byte, immExt: bv32)
    modifies entry`packetInfo, entry`ecuConditionCode, entry.ecu
    ensures entry.ecu.Decoded(Ecu16(b0, b1, immExt, entry.pcexec))
    ensures entry.packetInfo == Or(old(entry.packetInfo), Ecu16(b0, b1, immExt, entry.pcexec).info)
    ensures Widen(entry.ecuConditionCode) == entry.ecu.f1
  {
    hide Or, IsBranch16, Branch16Effects, BranchCond, ReturnEffects, Widen, Low32, Pick, Updated;
    ConditionIsWord(b0, b1, immExt, entry.pcexec);
    Settings();
    if IsBranch16(b0) {
      DecodeBranch16(entry, b0, b1, immExt);
    } else {
      DecodeReturn(entry, b0, b1);
    }
    entry.ecuConditionCode := Low32(entry.ecu.f1);
  }

  lemma LowBack(x: bv32)
    ensures Widen(Low32(Widen(x))) == Widen(x) && Widen(Low32(0)) == 0
  {
  }

  lemma ConditionIsWord(b0: Byte, b1: Byte, immExt: bv32, pc: bv32)
    ensures var c := Ecu16(b0, b1, immExt, pc).f1; c.Set? && Widen(Low32(c.value)) == c.value
  {
    hide Widen, Low32, Cond32, BranchCond, BranchOffset, BranchNop, Add64, Or, FlagDependencies, Variant, BranchInfo, IsBranch16, ReturnKind;
    LowBack(Cond32(b0, b1));
    LowBack(BranchCond(b0, b1, immExt));
  }

  // The 32-bit forms.

  method SetBranch(entry: Entry, cond: bv32)
    modifies entry`packetInfo, entry.ecu`f1, entry.ecu`miscIn
    ensures entry.packetInfo == Or(old(entry.packetInfo), INFO_ECU)
    ensures entry.ecu.f1 == Widen(cond) && entry.ecu.miscIn == FlagDependencies(cond)
  {
    entry.packetInfo := Or(entry.packetInfo, INFO_ECU);
    entry.ecu.f1 := Widen(cond);
    entry.ecu.miscIn := FlagDependencies(cond);
  }

  method BranchRelative(entry: Entry, cond: bv32, nop: bool, b1: Byte, b2: Byte, b3: Byte)
    modifies entry`packetInfo, entry.ecu
    ensures var e := Branch(cond, nop, Widen(Sum32(entry.pcexec, MediumOffset(b1, b2, b3))));
            entry.ecu.Decoded(e) && entry.packetInfo == Or(old(entry.packetInfo), e.info)
  {
    hide Or, Widen, Sum32, Wide, Asr18, TopBit, Joined, FlagDependencies, Variant, BranchInfo, Pick, Updated;
    Settings();
    OrAssociates(entry.packetInfo, INFO_ECU, BranchInfo(cond == CONDITION_T, nop));
    SetBranch(entry, cond);
    var offset := Asr18(TopBit(Wide(b2) & 0x01));
    offset := offset | ((Wide(b3) << 5) | (Wide(b1) & 0x1F));
    JoinedWritten(Asr18(TopBit(Wide(b2) & 0x01)), Wide(b3), Wide(b1) & 0x1F);
    entry.ecu.f2 := Widen(Sum32(entry.pcexec, offset << 1));
    Choose(entry, BRA, cond == CONDITION_T, nop);
  }

  lemma JoinedWritten(sign: bv32, middle: bv32, low: bv32)
    ensures Joined(sign, middle, low) == sign | ((middle << 5) | low)
  {
  }

  method SetAbsolute(ecu: Slot, b1: Byte, b2: Byte, b3: Byte, immExt: bv32)
    modifies ecu`f2
    ensures ecu.f2 == AbsoluteTarget(b1, b2, b3, immExt)
  {
    hide GatheredTarget, Add64, LowestBit;
    ecu.f2 := GatheredTarget(b1, b3, immExt);
    if immExt == 0 {
      if LowestBit(b2) {
        ecu.f2 := Add64(ecu.f2, IRAM_BASE);
      } else {
        ecu.f2 := Add64(ecu.f2, IROM_BASE);
      }
    }
  }

  method JumpAbsolute(entry: Entry, cond: bv32, nop: bool, b1: Byte, b2: Byte, b3: Byte, immExt: bv32)
    modifies entry`packetInfo, entry.ecu
    ensures var e := Branch(cond, nop, AbsoluteTarget(b1, b2, b3, immExt));
            entry.ecu.Decoded(e) && entry.packetInfo == Or(old(entry.packetInfo), e.info)
  {
    hide Or, Widen, AbsoluteTarget, FlagDependencies, Variant, BranchInfo, Pick, Updated;
    Settings();
    OrAssociates(entry.packetInfo, INFO_ECU, BranchInfo(cond == CONDITION_T, nop));
    SetBranch(entry, cond);
    SetAbsolute(entry.ecu, b1, b2, b3, immExt);
    Choose(entry, BRA, cond == CONDITION_T, nop);
  }

  method CallAbsolute(entry: Entry, cond: bv32, nop: bool, b1: Byte, b2: Byte, b3: Byte, immExt: bv32)
    modifies entry`packetInfo, entry.ecu
    ensures var e := Jsr(cond, nop, AbsoluteTarget(b1, b2, b3, immExt));
            entry.ecu.Decoded(e) && entry.packetInfo == Or(old(entry.packetInfo), e.info)
  {
    hide Or, Widen, AbsoluteTarget, FlagDependencies, Variant, BranchInfo, JsrInfo, Pick, Updated;
    Settings();
    OrAssociates(entry.packetInfo, INFO_ECU, JsrInfo(cond == CONDITION_T, nop));
    SetBranch(entry, cond);
    SetAbsolute(entry.ecu, b1, b2, b3, immExt);
    entry.ecu.miscOut := MASK_RZ;
    ChooseJsr(entry, JSR, cond == CONDITION_T, nop);
  }

  method JumpIndirect(entry: Entry, cond: bv32, nop: bool, register: bv32)
    modifies entry`packetInfo, entry.ecu
    ensures var e := JmpIndirect(cond, nop, register);
            entry.ecu.Decoded(e) && entry.packetInfo == Or(old(entry.packetInfo), e.info)
  {
    hide Or, Widen, ScalarMask, FlagDependencies, Variant, BranchInfo, Pick, Updated;
    Settings();
    OrAssociates(entry.packetInfo, INFO_ECU, BranchInfo(cond == CONDITION_T, nop));
    SetBranch(entry, cond);
    entry.ecu.f2 := Widen(register);
    entry.ecu.scalarIn := ScalarMask(register);
    Choose(entry, JMP_INDIRECT, cond == CONDITION_T, nop);
  }

  method CallIndirect(entry: Entry, cond: bv32, nop: bool, register: bv32)
    modifies entry`packetInfo, entry.ecu
    ensures var e := JsrIndirect(cond, nop, register);
            entry.ecu.Decoded(e) && entry.packetInfo == Or(old(entry.packetInfo), e.info)
  {
    hide Or, Widen, ScalarMask, FlagDependencies, Variant, BranchInfo, JsrInfo, Pick, Updated;
    Settings();
    OrAssociates(entry.packetInfo, INFO_ECU, JsrInfo(cond == CONDITION_T, nop));
    SetBranch(entry, cond);
    entry.ecu.f2 := Widen(register);
    entry.ecu.scalarIn := ScalarMask(register);
    entry.ecu.miscOut := MASK_RZ;
    ChooseJsr(entry, JSR_INDIRECT, cond == CONDITION_T, nop);
  }

  method Decode32(entry: Entry, b0: Byte, b1: Byte, b2: Byte, b3: Byte, immExt: bv32)
    modifies entry`packetInfo, entry`ecuConditionCode, entry.ecu
    ensures entry.ecu.Decoded(Ecu32(b0, b1, b2, b3, immExt, entry.pcexec))
    ensures entry.packetInfo == Or(old(entry.packetInfo), Ecu32(b0, b1, b2, b3, immExt, entry.pcexec).info)
    ensures Widen(entry.ecuConditionCode) == entry.ecu.f1
  {
    hide Or, Branch, Jsr, JmpIndirect, JsrIndirect, Widen, Low32, Pick, Updated, Cond32, Nop32, KindOf32, Register, AbsoluteTarget, MediumOffset, Sum32;
    Settings();
    var cond, nop, kind := Cond32(b0, b1), Nop32(b2), KindOf32(b2);
    LowBack(cond);
    KindsOf32(b2);
    ConditionField(cond, nop, Widen(Sum32(entry.pcexec, MediumOffset(b1, b2, b3))));
    ConditionField(cond, nop, AbsoluteTarget(b1, b2, b3, immExt));
    ConditionOfIndirect(cond, nop, Register(b1));
    if b2 & 0x06 == 0 {
      BranchRelative(entry, cond, nop, b1, b2, b3);
    } else if kind <= 3 {
      JumpAbsolute(entry, cond, nop, b1, b2, b3, immExt);
    } else if kind <= 5 {
      CallAbsolute(entry, cond, nop, b1, b2, b3, immExt);
    } else if kind == 6 {
      JumpIndirect(entry, cond, nop, Register(b1));
    } else {
      CallIndirect(entry, cond, nop, Register(b1));
    }
    entry.ecuConditionCode := Low32(entry.ecu.f1);
  }

  lemma KindsOf32(b2: Byte)
    ensures KindOf32(b2) <= 7
  {
  }

  lemma ConditionField(cond: bv32, nop: bool, address: bv64)
    ensures Branch(cond, nop, address).f1 == Jsr(cond, nop, address).f1 == Set(Widen(cond))
  {
  }

  lemma ConditionOfIndirect(cond: bv32, nop: bool, register: bv32)
    ensures JmpIndirect(cond, nop, register).f1 == JsrIndirect(cond, nop, register).f1 == Set(Widen(cond))
  {
  }
}
