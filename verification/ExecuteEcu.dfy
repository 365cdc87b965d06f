/** The branch handlers. */
module ExecuteEcu {
  import opened Conversions
  import opened Dependencies
  import opened Handlers
  import opened Machine
  import opened Words

  // ---- Conditions ----

  predicate Less(cc: bv32) { cc & 0x0C == 0x08 || cc & 0x0C == 0x04 }

  predicate TestAlu(c: bv32, cc: bv32) {
    if c == 0x00 then cc & ZERO == 0
    else if c == 0x01 then cc & COUNTER0_ZERO != 0
    else if c == 0x02 then cc & COUNTER1_ZERO != 0
    else if c == 0x03 then cc & CARRY == 0
    else if c == 0x04 then cc & ZERO != 0
    else if c == 0x05 then cc & CARRY != 0
    else if c == 0x06 then cc & OVERFLOW == 0
    else if c == 0x07 then cc & OVERFLOW != 0
    else if c == 0x08 then Less(cc)
    else if c == 0x09 then cc & MUL_OVERFLOW == 0
    else if c == 0x0A then cc & MUL_OVERFLOW != 0
    else if c == 0x0B then cc & 0x03 == 0
    else if c == 0x0C then cc & ZERO != 0 || Less(cc)
    else if c == 0x0D then cc & 0x03 != 0
    else if c == 0x0E then cc & NEGATIVE == 0
    else cc & NEGATIVE != 0
  }

  predicate TestOther(c: bv32, cc: bv32) {
    if c == 0x10 then cc & 0x0D == 0x0C || cc & 0x0D == 0
    else if c == 0x11 then true
    else if c == 0x12 then cc & MODMI != 0
    else if c == 0x13 then cc & MODMI == 0
    else if c == 0x14 then cc & 0x0C == 0x0C || cc & 0x0C == 0
    else if c == 0x15 then cc & MODGE != 0
    else if c == 0x16 then cc & MODGE == 0
    else if c == 0x18 then cc & COUNTER0_ZERO == 0
    else if c == 0x1B then cc & COPROCESSOR0 == 0
    else if c == 0x1C then cc & COUNTER1_ZERO == 0
    else if c == 0x1D then cc & COPROCESSOR0 != 0
    else if c == 0x1E then cc & COPROCESSOR1 == 0
    else if c == 0x1F then cc & COPROCESSOR1 != 0
    else false
  }

  predicate TestCondition(condition: bv32, cc: bv32) {
    var c := condition & 0x1F;
    if c < 0x10 then TestAlu(c, cc) else TestOther(c, cc)
  }

  // ---- The handlers ----

  /** Without delay slots one packet is skipped, with them three. */
  function Go(m: State, target: bv32, nop: bool): State {
    m.(pcfetchnext := target, ecuSkipCounter := if nop then 1 else 3)
  }

  function Linked(m: State, link: bv32): State { m.(regs := SetReg(m.regs, RZ, link)) }

  /** Which of the four handlers of a kind. */
  function VariantOf(h: bv64, first: bv64): bv64 { h - first }

  predicate Always(variant: bv64) { variant < 2 }
  predicate Nop(variant: bv64) { variant & 1 == 1 }

  predicate Taken(variant: bv64, f: Fields, cc: bv32) { Always(variant) || TestCondition(Low32(f.f1), cc) }

  function BranchTo(f: Fields, variant: bv64, m: State, target: bv32, cc: bv32): State {
    if Taken(variant, f, cc) then Go(m, target, Nop(variant)) else m
  }

  /** A subroutine jump also keeps the address to return to. */
  function CallTo(f: Fields, variant: bv64, m: State, target: bv32, cc: bv32): State {
    if Taken(variant, f, cc) then Go(Linked(m, Low32(if Nop(variant) then f.f3 else f.f4)), target, Nop(variant)) else m
  }

  function Halted(m: State): State {
    var m := m.(excepsrc := SetBits(m.excepsrc, 0x01));
    if m.excephalten & 1 == 0 then m.(intsrc := SetBits(m.intsrc, 0x01)) else m.(mpectl := ClearBits(m.mpectl, 0x02))
  }

  function LeaveInterrupt(f: Fields, variant: bv64, m: State, target: bv32, bit: bv32, cc: bv32): State {
    if TestCondition(Low32(f.f1), cc) then Go(m.(intctl := ClearBits(m.intctl, bit)), target, Nop(variant)) else m
  }

  /** While packets are being skipped nothing happens. */
  function Execute(f: Fields, m: State, p: Registers, cc: bv32): State {
    var h := f.handler;
    if m.ecuSkipCounter != 0 || !Known(h) then m
    else if h == HALT then Halted(m)
    else if h < JMP_INDIRECT then BranchTo(f, VariantOf(h, BRA), m, Low32(f.f2), cc)
    else if h < JSR then BranchTo(f, VariantOf(h, JMP_INDIRECT), m, Reg(p, Low32(f.f2)), cc)
    else if h < JSR_INDIRECT then CallTo(f, VariantOf(h, JSR), m, Low32(f.f2), cc)
    else if h < RTI1 then CallTo(f, VariantOf(h, JSR_INDIRECT), m, Reg(p, Low32(f.f2)), cc)
    else if h < RTI2 then LeaveInterrupt(f, VariantOf(h, RTI1), m, Reg(p, RZI1), 0x02, cc)
    else if h < RTS then LeaveInterrupt(f, VariantOf(h, RTI2), m, Reg(p, RZI2), 0x20, cc)
    else BranchTo(f, VariantOf(h, RTS), m, Reg(p, RZ), cc)
  }

  // ---- What the handlers read and write ----

  predicate Indirect(h: bv64) { JMP_INDIRECT <= h < JSR || JSR_INDIRECT <= h < RTI1 }
  predicate Links(h: bv64) { JSR <= h < RTI1 }

  function Needs(f: Fields): Masks {
    var h := f.handler;
    Masks(if Indirect(h) then ScalarMask(Low32(f.f2)) else 0,
          if RTI1 <= h < RTI2 then MASK_RZI1 else if RTI2 <= h < RTS then MASK_RZI2 else if RTS <= h <= RTS + 3 then MASK_RZ else 0,
          0, if Links(h) then MASK_RZ else 0)
  }

  predicate Known(h: bv64) { HALT <= h <= RTS + 3 }

  /** The handler is one of the unit's, and operands name registers that exist. */
  predicate Fits(f: Fields) { Known(f.handler) && (Indirect(f.handler) ==> Low32(f.f2) < 32) }

  lemma MiscBits()
    ensures Has(MASK_RZ, RZ - 33) && Has(MASK_RZI1, RZI1 - 33) && Has(MASK_RZI2, RZI2 - 33)
  {
  }

  lemma Reads(f: Fields, masks: Masks, m: State, p: Registers, q: Registers, cc: bv32)
    requires Agree(p, q, masks) && Fits(f) && AllInclude(masks, Needs(f))
    ensures Execute(f, m, p, cc) == Execute(f, m, q, cc)
  {
    hide Agree, Includes, Has, Reg, ScalarMask, VariantOf, BranchTo, CallTo, LeaveInterrupt, Halted, Low32;
    MiscBits();
    var h := f.handler;
    if Indirect(h) { ScalarAgrees(masks, p, q, Low32(f.f2)); }
    if RTI1 <= h < RTI2 { MiscAgrees(masks, p, q, MASK_RZI1, RZI1); }
    if RTI2 <= h < RTS { MiscAgrees(masks, p, q, MASK_RZI2, RZI2); }
    if RTS <= h <= RTS + 3 { MiscAgrees(masks, p, q, MASK_RZ, RZ); }
  }

  lemma Writes(f: Fields, masks: Masks, m: State, p: Registers, cc: bv32)
    requires AllInclude(masks, Needs(f))
    ensures KeepsOthers(m.regs, Execute(f, m, p, cc).regs, masks)
    ensures KeepsFlags(Reg(m.regs, CC), Reg(Execute(f, m, p, cc).regs, CC), masks.miscOut)
  {
    hide KeepsOthers, KeepsFlags, Includes, Has, Reg, SetReg, ScalarMask, TestCondition, Low32, Nop, VariantOf;
    NothingWritten(masks, m.regs);
    SameFlags(Reg(m.regs, CC), masks.miscOut);
    MiscBits();
    var h := f.handler;
    if Links(h) {
      MiscWritten(masks, m.regs, MASK_RZ, RZ, Low32(f.f3));
      MiscWritten(masks, m.regs, MASK_RZ, RZ, Low32(f.f4));
    }
  }

  function Bound(f: Fields): Handler { (m: State, p: Registers, cc: bv32) => Execute(f, m, p, cc) }

  /** Words that include what a handler needs are true of it. */
  lemma HandlerSound(f: Fields, masks: Masks)
    requires Fits(f) && AllInclude(masks, Needs(f))
    ensures Sound(Instruction(Bound(f), masks))
  {
    hide Agree, KeepsOthers, KeepsFlags, Execute, Needs, Fits, AllInclude, Reg;
    forall m: State, p: Registers, q: Registers, cc: bv32 | Agree(p, q, masks) ensures Execute(f, m, p, cc) == Execute(f, m, q, cc) {
      Reads(f, masks, m, p, q, cc);
    }
    forall m: State, p: Registers, cc: bv32
      ensures KeepsOthers(m.regs, Execute(f, m, p, cc).regs, masks)
      ensures KeepsFlags(Reg(m.regs, CC), Reg(Execute(f, m, p, cc).regs, CC), masks.miscOut)
    {
      Writes(f, masks, m, p, cc);
    }
  }
}
