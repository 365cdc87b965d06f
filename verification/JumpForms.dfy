/** The encodings of jumps, calls, returns and the halt, and what running the decoded bytes does. */
module JumpForms {
  import opened BranchForms
  import opened Conversions
  import opened DecodeEcu
  import opened Dependencies
  import opened Handlers
  import opened InstructionEntry
  import opened Machine
  import opened Mixing
  import opened Words
  import ExecuteEcu

  // ---- Meanings ----

  /** Unless packets are being skipped or the condition fails: on to the target, after the delay slots. */
  function Jump(m: State, cond: bv32, nop: bool, target: bv32, cc: bv32): State {
    if m.ecuSkipCounter == 0 && ExecuteEcu.TestCondition(cond, cc)
    then m.(pcfetchnext := target, ecuSkipCounter := if nop then 1 else 3) else m
  }

  /** The same, with the return address in rz. */
  function Call(m: State, cond: bv32, nop: bool, target: bv32, link: bv32, cc: bv32): State {
    if m.ecuSkipCounter == 0 && ExecuteEcu.TestCondition(cond, cc)
    then m.(regs := SetReg(m.regs, RZ, link), pcfetchnext := target, ecuSkipCounter := if nop then 1 else 3) else m
  }

  /** A return from an interrupt also clears a bit of intctl. */
  function Resume(m: State, cond: bv32, nop: bool, target: bv32, bit: bv32, cc: bv32): State {
    if m.ecuSkipCounter == 0 && ExecuteEcu.TestCondition(cond, cc)
    then m.(intctl := ClearBits(m.intctl, bit), pcfetchnext := target, ecuSkipCounter := if nop then 1 else 3) else m
  }

  /** Where a call without and with delay slots returns to: fields that only the record's owner sets. */
  function LinkOf(f: Fields, nop: bool): bv32 { Low32(if nop then f.f3 else f.f4) }

  // ---- What each kind of effect runs as ----

  lemma JsrVariants(always: bool, nop: bool)
    ensures JSR <= Variant(JSR, always, nop) < JSR_INDIRECT
    ensures ExecuteEcu.Nop(ExecuteEcu.VariantOf(Variant(JSR, always, nop), JSR)) == nop
    ensures ExecuteEcu.Always(ExecuteEcu.VariantOf(Variant(JSR, always, nop), JSR)) == always
  {
  }

  lemma IndirectVariants(always: bool, nop: bool)
    ensures JMP_INDIRECT <= Variant(JMP_INDIRECT, always, nop) < JSR
    ensures ExecuteEcu.Nop(ExecuteEcu.VariantOf(Variant(JMP_INDIRECT, always, nop), JMP_INDIRECT)) == nop
    ensures ExecuteEcu.Always(ExecuteEcu.VariantOf(Variant(JMP_INDIRECT, always, nop), JMP_INDIRECT)) == always
  {
  }

  lemma JsrIndirectVariants(always: bool, nop: bool)
    ensures JSR_INDIRECT <= Variant(JSR_INDIRECT, always, nop) < RTI1
    ensures ExecuteEcu.Nop(ExecuteEcu.VariantOf(Variant(JSR_INDIRECT, always, nop), JSR_INDIRECT)) == nop
    ensures ExecuteEcu.Always(ExecuteEcu.VariantOf(Variant(JSR_INDIRECT, always, nop), JSR_INDIRECT)) == always
  {
  }

  lemma RtsVariants(always: bool, nop: bool)
    ensures RTS <= Variant(RTS, always, nop) <= RTS + 3
    ensures ExecuteEcu.Nop(ExecuteEcu.VariantOf(Variant(RTS, always, nop), RTS)) == nop
    ensures ExecuteEcu.Always(ExecuteEcu.VariantOf(Variant(RTS, always, nop), RTS)) == always
  {
  }

  lemma CallGoes(cond: bv32, nop: bool, address: bv64, f: Fields, m: State, p: Registers, cc: bv32)
    ensures Run(Jsr(cond, nop, address), f, m, p, cc) == Call(m, cond, nop, Low32(address), LinkOf(f, nop), cc)
  {
    JsrVariants(cond == CONDITION_T, nop);
    AlwaysHolds(cc);
    LowOfWidened(cond);
    hide Variant, Low32, Widen, JsrInfo, FlagDependencies, Or, ExecuteEcu.TestCondition, ExecuteEcu.Nop, ExecuteEcu.Always, ExecuteEcu.VariantOf,
         Reg, SetReg;
  }

  lemma IndirectGoes(cond: bv32, nop: bool, r: bv32, f: Fields, m: State, p: Registers, cc: bv32)
    ensures Run(JmpIndirect(cond, nop, r), f, m, p, cc) == Jump(m, cond, nop, Reg(p, r), cc)
  {
    IndirectVariants(cond == CONDITION_T, nop);
    AlwaysHolds(cc);
    LowOfWidened(cond);
    LowOfWidened(r);
    hide Variant, Low32, Widen, BranchInfo, FlagDependencies, Or, ExecuteEcu.TestCondition, ExecuteEcu.Nop, ExecuteEcu.Always,
         ExecuteEcu.VariantOf, Reg,
         ScalarMask;
  }

  lemma IndirectCallGoes(cond: bv32, nop: bool, r: bv32, f: Fields, m: State, p: Registers, cc: bv32)
    ensures Run(JsrIndirect(cond, nop, r), f, m, p, cc) == Call(m, cond, nop, Reg(p, r), LinkOf(f, nop), cc)
  {
    JsrIndirectVariants(cond == CONDITION_T, nop);
    AlwaysHolds(cc);
    LowOfWidened(cond);
    LowOfWidened(r);
    hide Variant, Low32, Widen, JsrInfo, FlagDependencies, Or, ExecuteEcu.TestCondition, ExecuteEcu.Nop, ExecuteEcu.Always, ExecuteEcu.VariantOf,
         Reg, SetReg,
         ScalarMask;
  }

  lemma RtsGoes(cond: bv32, nop: bool, f: Fields, m: State, p: Registers, cc: bv32)
    ensures Run(Return(Variant(RTS, cond == CONDITION_T, nop), cond, BranchInfo(cond == CONDITION_T, nop), MASK_RZ), f, m, p, cc)
            == Jump(m, cond, nop, Reg(p, RZ), cc)
  {
    RtsVariants(cond == CONDITION_T, nop);
    AlwaysHolds(cc);
    LowOfWidened(cond);
    hide Variant, Low32, Widen, BranchInfo, FlagDependencies, Or, ExecuteEcu.TestCondition, ExecuteEcu.Nop, ExecuteEcu.Always,
         ExecuteEcu.VariantOf, Reg;
  }

  function Rti(first: bv64, nop: bool): bv64 { if nop then first + 1 else first }

  lemma Rti1Variants(nop: bool)
    ensures RTI1 <= Rti(RTI1, nop) < RTI2 && ExecuteEcu.Nop(ExecuteEcu.VariantOf(Rti(RTI1, nop), RTI1)) == nop
  {
  }

  lemma Rti2Variants(nop: bool)
    ensures RTI2 <= Rti(RTI2, nop) < RTS && ExecuteEcu.Nop(ExecuteEcu.VariantOf(Rti(RTI2, nop), RTI2)) == nop
  {
  }

  lemma Rti1Goes(cond: bv32, nop: bool, f: Fields, m: State, p: Registers, cc: bv32)
    ensures Run(Return(Rti(RTI1, nop), cond, BranchInfo(false, nop), MASK_RZI1), f, m, p, cc) == Resume(m, cond, nop, Reg(p, RZI1), 0x02, cc)
  {
    Rti1Variants(nop);
    LowOfWidened(cond);
    hide Rti, Low32, Widen, BranchInfo, FlagDependencies, Or, ClearBits, ExecuteEcu.TestCondition, ExecuteEcu.Nop, ExecuteEcu.VariantOf, Reg;
  }

  lemma Rti2Goes(cond: bv32, nop: bool, f: Fields, m: State, p: Registers, cc: bv32)
    ensures Run(Return(Rti(RTI2, nop), cond, BranchInfo(false, nop), MASK_RZI2), f, m, p, cc) == Resume(m, cond, nop, Reg(p, RZI2), 0x20, cc)
  {
    Rti2Variants(nop);
    LowOfWidened(cond);
    hide Rti, Low32, Widen, BranchInfo, FlagDependencies, Or, ClearBits, ExecuteEcu.TestCondition, ExecuteEcu.Nop, ExecuteEcu.VariantOf, Reg;
  }

  // ---- Absolute jumps and calls ----

  /** Kinds 2 and 3 jump, 4 and 5 call. */
  function GoTo(kind: Byte, m: State, cond: bv32, nop: bool, target: bv32, link: bv32, cc: bv32): State {
    if kind <= 3 then Jump(m, cond, nop, target, cc) else Call(m, cond, nop, target, link, cc)
  }

  lemma JumpToGoes(kind: Byte, cond: bv32, nop: bool, address: bv64, f: Fields, m: State, p: Registers, cc: bv32)
    ensures Run(JumpTo(kind, cond, nop, address), f, m, p, cc) == GoTo(kind, m, cond, nop, Low32(address), LinkOf(f, nop), cc)
  {
    hide Branch, Jsr, Run, Call, Low32, LinkOf, ExecuteEcu.TestCondition;
    if kind <= 3 { LongGoes(cond, nop, address, f, m, p, cc); } else { CallGoes(cond, nop, address, f, m, p, cc); }
  }

  /** With an extension word: a jump or a call to any even address. */
  lemma AbsoluteRuns(kind: Byte, cond: bv32, nop: bool, target: bv32, immExt: bv32, pc: bv32, f: Fields, m: State, p: Registers, cc: bv32)
    requires IsAbsolute(kind) && cond < 32 && target & 1 == 0 && immExt & 0x7FFFE00 == AbsoluteBits(target) && immExt != 0
    ensures Run(Ecu32(Byte0Of32(cond), AbsoluteByte1(cond, target), AbsoluteByte2(kind, nop), AbsoluteByte3(target), immExt, pc), f, m, p, cc)
            == GoTo(kind, m, cond, nop, target, LinkOf(f, nop), cc)
  {
    hide Ecu32, JumpTo, Run, GoTo, LinkOf, Widen, Low32, AbsoluteBits, Byte0Of32, AbsoluteByte1, AbsoluteByte2, AbsoluteByte3;
    AbsoluteTargetBack(kind, cond, nop, target, immExt, pc);
    JumpToGoes(kind, cond, nop, Widen(target), f, m, p, cc);
    LowOfWidened(target);
  }

  /** An even place among the first 2^14 bytes of a memory. */
  predicate IsPlace(place: bv32) { place & 1 == 0 && place < 0x4000 }

  lemma PlaceBack(place: bv32)
    requires IsPlace(place)
    ensures Gathered(0, (place >> 6) & 0xFF, (place >> 1) & 0x1F) == Widen(place)
  {
  }

  /** Instruction RAM for the odd kinds, instruction ROM for the even ones. */
  predicate InRam(kind: Byte) { kind == 3 || kind == 5 }
  function PlaceInRam(place: bv32): bv32 { 0x20300000 + place }
  function PlaceInRom(place: bv32): bv32 { 0x20200000 + place }
  function Place(kind: Byte, place: bv32): bv32 { if InRam(kind) then PlaceInRam(place) else PlaceInRom(place) }

  lemma PlacesAdded(place: bv32)
    requires IsPlace(place)
    ensures Low32(Add64(Widen(place), IRAM_BASE)) == PlaceInRam(place) && Low32(Add64(Widen(place), IROM_BASE)) == PlaceInRom(place)
  {
  }

  lemma PlaceAdded(kind: Byte, place: bv32)
    requires IsPlace(place)
    ensures Low32(Add64(Widen(place), if InRam(kind) then IRAM_BASE else IROM_BASE)) == Place(kind, place)
  {
    hide InRam, PlaceInRam, PlaceInRom, IsPlace, Low32, Add64, Widen;
    PlacesAdded(place);
  }

  lemma NoExtension()
    ensures (0 as bv32) & 0x7FFFE00 == 0
  {
  }

  lemma LowestBitOfKind(kind: Byte, nop: bool)
    requires IsAbsolute(kind)
    ensures LowestBit(AbsoluteByte2(kind, nop)) <==> InRam(kind)
  {
  }

  lemma LocalTarget(kind: Byte, cond: bv32, nop: bool, place: bv32)
    requires IsAbsolute(kind) && IsPlace(place)
    ensures AbsoluteTarget(AbsoluteByte1(cond, place), AbsoluteByte2(kind, nop), AbsoluteByte3(place), 0)
            == Add64(Widen(place), if InRam(kind) then IRAM_BASE else IROM_BASE)
  {
    hide Gathered, AbsoluteByte1, AbsoluteByte2, AbsoluteByte3, Wide, Widen, Add64, LowestBit, IsPlace, IsAbsolute, InRam;
    PlaceBack(place);
    AbsoluteBytes(cond, place);
    NoExtension();
    LowestBitOfKind(kind, nop);
  }

  lemma LocalDecodes(kind: Byte, cond: bv32, nop: bool, place: bv32, pc: bv32)
    requires IsAbsolute(kind) && cond < 32
    ensures var (b1, b2, b3) := (AbsoluteByte1(cond, place), AbsoluteByte2(kind, nop), AbsoluteByte3(place));
            Ecu32(Byte0Of32(cond), b1, b2, b3, 0, pc) == JumpTo(kind, cond, nop, AbsoluteTarget(b1, b2, b3, 0))
  {
    hide Byte0Of32, Byte1Of32, AbsoluteByte2, AbsoluteByte3, AbsoluteTarget, Branch, Jsr, Cond32, Nop32, KindOf32, Widen, MediumOffset, Register;
    Cond32Back(cond, place >> 1);
    AbsoluteFields(kind, nop);
  }

  /** Without one: into instruction RAM or ROM. */
  lemma LocalRuns(kind: Byte, cond: bv32, nop: bool, place: bv32, pc: bv32, f: Fields, m: State, p: Registers, cc: bv32)
    requires IsAbsolute(kind) && cond < 32 && IsPlace(place)
    ensures Run(Ecu32(Byte0Of32(cond), AbsoluteByte1(cond, place), AbsoluteByte2(kind, nop), AbsoluteByte3(place), 0, pc), f, m, p, cc)
            == GoTo(kind, m, cond, nop, Place(kind, place), LinkOf(f, nop), cc)
  {
    hide Ecu32, JumpTo, Run, GoTo, LinkOf, Widen, Low32, Add64, AbsoluteTarget, IsPlace, IsAbsolute, InRam, Place, Byte0Of32, AbsoluteByte1,
         AbsoluteByte2, AbsoluteByte3;
    var address := AbsoluteTarget(AbsoluteByte1(cond, place), AbsoluteByte2(kind, nop), AbsoluteByte3(place), 0);
    LocalDecodes(kind, cond, nop, place, pc);
    LocalTarget(kind, cond, nop, place);
    PlaceAdded(kind, place);
    JumpToGoes(kind, cond, nop, address, f, m, p, cc);
  }

  // ---- Jumps and calls through a register ----

  function IndirectByte2(call: bool, nop: bool): Byte { (if call then 0x07 else 0x06) | (if nop then 0x08 else 0) }

  lemma IndirectFields(cond: bv32, r: bv32, call: bool, nop: bool)
    requires r < 32
    ensures KindOf32(IndirectByte2(call, nop)) == (if call then 7 else 6) && Nop32(IndirectByte2(call, nop)) == nop
    ensures IndirectByte2(call, nop) & 0x06 != 0 && Register(Byte1Of32(cond, r)) == r
  {
  }

  lemma IndirectRuns(cond: bv32, nop: bool, r: bv32, call: bool, b3: Byte, immExt: bv32, pc: bv32, f: Fields, m: State, p: Registers, cc: bv32)
    requires cond < 32 && r < 32
    ensures Run(Ecu32(Byte0Of32(cond), Byte1Of32(cond, r), IndirectByte2(call, nop), b3, immExt, pc), f, m, p, cc)
            == if call then Call(m, cond, nop, Reg(p, r), LinkOf(f, nop), cc) else Jump(m, cond, nop, Reg(p, r), cc)
  {
    hide Byte0Of32, Byte1Of32, IndirectByte2, Run, Jump, Call, LinkOf, JmpIndirect, JsrIndirect, Branch, Jsr, Cond32, Nop32, KindOf32, Widen,
         MediumOffset,
         Register, AbsoluteTarget, Reg;
    Cond32Back(cond, r);
    IndirectFields(cond, r, call, nop);
    if call { IndirectCallGoes(cond, nop, r, f, m, p, cc); } else { IndirectGoes(cond, nop, r, f, m, p, cc); }
  }

  // ---- Returns and halt ----

  function ReturnByte0(cond: bv32): Byte { Narrow((cond >> 3) & 0x03) }

  /** The kind: 0 for rts, 1 and 2 for the two interrupts. */
  function ReturnByte1(cond: bv32, kind: Byte, nop: bool): Byte {
    Narrow((cond & 0x07) << 5) | ((kind & 0x03) << 1) | (if nop then 1 else 0)
  }

  predicate ReadsAsHalt(cond: bv32, kind: Byte, nop: bool) { cond & 0x07 == 0 && kind == 0 && nop }

  lemma ReturnFields(cond: bv32, kind: Byte, nop: bool)
    requires cond < 32 && kind < 3
    ensures !IsBranch16(ReturnByte0(cond)) && Cond32(ReturnByte0(cond), ReturnByte1(cond, kind, nop)) == cond
    ensures LowestBit(ReturnByte1(cond, kind, nop)) == nop && ReturnKind(ReturnByte1(cond, kind, nop)) == kind
    ensures ReturnByte1(cond, kind, nop) == 0x01 <==> ReadsAsHalt(cond, kind, nop)
  {
  }

  /** What a halt does: the exception is recorded, and either interrupts or stops the processor. */
  function Stop(m: State): State {
    if m.ecuSkipCounter != 0 then m
    else if m.excephalten & 0x01 != 0 then m.(excepsrc := SetBits(m.excepsrc, 0x01), mpectl := ClearBits(m.mpectl, 0x02))
    else m.(excepsrc := SetBits(m.excepsrc, 0x01), intsrc := SetBits(m.intsrc, 0x01))
  }

  lemma HaltGoes(f: Fields, m: State, p: Registers, cc: bv32)
    ensures Run(HALTING, f, m, p, cc) == Stop(m)
  {
    hide SetBits, ClearBits, Or;
  }

  /** Returns do what they say, but for one family: rts without delay slots whose condition is a multiple of 8 (ne, lt, gt, c0ne)
      has the bytes of a halt, and halts. */
  lemma ReturnRuns(cond: bv32, kind: Byte, nop: bool, immExt: bv32, pc: bv32, f: Fields, m: State, p: Registers, cc: bv32)
    requires cond < 32 && kind < 3
    ensures Run(Ecu16(ReturnByte0(cond), ReturnByte1(cond, kind, nop), immExt, pc), f, m, p, cc)
            == if ReadsAsHalt(cond, kind, nop) then Stop(m)
               else if kind == 0 then Jump(m, cond, nop, Reg(p, RZ), cc)
               else if kind == 1 then Resume(m, cond, nop, Reg(p, RZI1), 0x02, cc)
               else Resume(m, cond, nop, Reg(p, RZI2), 0x20, cc)
  {
    hide ReturnByte0, ReturnByte1, ReadsAsHalt, Run, Stop, Jump, Resume, Return, Variant, BranchInfo, Reg, IsBranch16, Cond32, LowestBit,
         ReturnKind, HALTING,
         Branch16Effects;
    ReturnFields(cond, kind, nop);
    SmallKind(kind);
    HaltGoes(f, m, p, cc);
    RtsGoes(cond, nop, f, m, p, cc);
    Rti1Goes(cond, nop, f, m, p, cc);
    Rti2Goes(cond, nop, f, m, p, cc);
  }

  lemma SmallKind(kind: Byte)
    requires kind < 3
    ensures kind == 0 || kind == 1 || kind == 2
  {
  }
}
