/** The state of a processor, what a handler does to it, and when its dependency words tell the truth. */
module Machine {
  import opened Dependencies
  import opened Words

  // ---- Registers ----

  type Registers = s: seq<bv32> | |s| == 48 witness seq(48, _ => 0)

  const CC: bv32 := 32
  const RC0: bv32 := 33
  const RC1: bv32 := 34
  const INDEX: bv32 := 35
  const RU: bv32 := 37
  const RV: bv32 := 38
  const RZ: bv32 := 39
  const RZI1: bv32 := 40
  const RZI2: bv32 := 41
  const UVCTL: bv32 := 43
  const XYRANGE: bv32 := 44
  const UVRANGE: bv32 := 45
  const ACSHIFT: bv32 := 46
  const SVSHIFT: bv32 := 47

  // Bits of the flags register.
  const ZERO: bv32 := 0x01
  const CARRY: bv32 := 0x02
  const OVERFLOW: bv32 := 0x04
  const NEGATIVE: bv32 := 0x08
  const MUL_OVERFLOW: bv32 := 0x10
  const COUNTER0_ZERO: bv32 := 0x20
  const COUNTER1_ZERO: bv32 := 0x40
  const MODGE: bv32 := 0x80
  const MODMI: bv32 := 0x100
  const COPROCESSOR0: bv32 := 0x200
  const COPROCESSOR1: bv32 := 0x400

  function SetBits(cc: bv32, flags: bv32): bv32 { cc | flags }
  function ClearBits(cc: bv32, flags: bv32): bv32 { cc & !flags }

  function Reg(p: Registers, r: bv32): bv32 {
    if r < 48 then p[r as nat] else 0
  }

  function SetReg(p: Registers, r: bv32, v: bv32): Registers {
    if r < 48 then p[r as nat := v] else p
  }

  lemma RegAfterSet(p: Registers, r: bv32, v: bv32, s: bv32)
    requires r < 48
    ensures Reg(SetReg(p, r, v), s) == if r == s then v else Reg(p, s)
  {
  }

  datatype State = State(regs: Registers, pcfetchnext: bv32, ecuSkipCounter: bv32, intctl: bv32,
                         excepsrc: bv32, intsrc: bv32, mpectl: bv32, excephalten: bv32)

  /** The fields of one decoded instruction: the number of its handler and its operands. */
  datatype Fields = Fields(handler: bv64, f1: bv64, f2: bv64, f3: bv64, f4: bv64)

  // ---- Handlers and their dependency words ----

  /** A handler changes the state; registers it reads as operands come from a second register file,
      and conditions are tested on a copy of the flags. */
  type Handler = (State, Registers, bv32) -> State

  datatype Instruction = Instruction(run: Handler, masks: Masks)

  /** Two register files agree on all that the words name as inputs. */
  ghost predicate Agree(p: Registers, q: Registers, masks: Masks) {
    forall r :: Covered(masks.scalarIn, masks.miscIn, r) ==> Reg(p, r) == Reg(q, r)
  }

  /** Nothing changed but what the words name as outputs; the flags register is looked at flag by flag. */
  ghost predicate KeepsOthers(p: Registers, q: Registers, masks: Masks) {
    forall r :: r != CC && !Covered(masks.scalarOut, masks.miscOut, r) ==> Reg(q, r) == Reg(p, r)
  }

  function FlagPart(misc: bv32): bv32 { misc >> 15 }

  predicate ChangesOnly(cc: bv32, cc': bv32, flags: bv32) { (cc ^ cc') & !flags == 0 }

  predicate KeepsFlags(cc: bv32, cc': bv32, miscOut: bv32) { ChangesOnly(cc, cc', FlagPart(miscOut)) }

  /** The dependency words are true of the handler. */
  ghost predicate Sound(i: Instruction) {
    && (forall m: State, p: Registers, q: Registers, cc: bv32 :: Agree(p, q, i.masks) ==> i.run(m, p, cc) == i.run(m, q, cc))
    && (forall m: State, p: Registers, cc: bv32 :: KeepsOthers(m.regs, i.run(m, p, cc).regs, i.masks))
    && (forall m: State, p: Registers, cc: bv32 :: KeepsFlags(Reg(m.regs, CC), Reg(i.run(m, p, cc).regs, CC), i.masks.miscOut))
  }

  // ---- Consequences of words that include what a handler needs ----

  lemma ScalarAgrees(masks: Masks, p: Registers, q: Registers, r: bv32)
    requires Agree(p, q, masks) && Includes(masks.scalarIn, ScalarMask(r)) && r < 32
    ensures Reg(p, r) == Reg(q, r)
  {
    hide Reg, Includes, ScalarMask, Has;
    HasScalar(r);
    IncludedHas(masks.scalarIn, ScalarMask(r), r);
    assert Covered(masks.scalarIn, masks.miscIn, r);
  }

  lemma IncludedAgrees(masks: Masks, p: Registers, q: Registers, part: bv32, r: bv32)
    requires Agree(p, q, masks) && Includes(masks.scalarIn, part) && Has(part, r) && r < 32
    ensures Reg(p, r) == Reg(q, r)
  {
    hide Reg, Includes, Has;
    IncludedHas(masks.scalarIn, part, r);
    assert Covered(masks.scalarIn, masks.miscIn, r);
  }

  lemma MiscAgrees(masks: Masks, p: Registers, q: Registers, part: bv32, r: bv32)
    requires Agree(p, q, masks) && Includes(masks.miscIn, part) && 33 <= r < 48 && Has(part, r - 33)
    ensures Reg(p, r) == Reg(q, r)
  {
    hide Reg, Includes, Has;
    IncludedHas(masks.miscIn, part, r - 33);
    assert Covered(masks.scalarIn, masks.miscIn, r);
  }

  lemma Written(masks: Masks, p: Registers, r: bv32, v: bv32)
    requires r < 48 && r != CC && Covered(masks.scalarOut, masks.miscOut, r)
    ensures KeepsOthers(p, SetReg(p, r, v), masks) && Reg(SetReg(p, r, v), CC) == Reg(p, CC)
  {
    hide Covered, Reg, SetReg;
    forall s ensures Reg(SetReg(p, r, v), s) == if r == s then v else Reg(p, s) { RegAfterSet(p, r, v, s); }
  }

  lemma ScalarWritten(masks: Masks, p: Registers, part: bv32, r: bv32, v: bv32)
    requires Includes(masks.scalarOut, part) && Has(part, r) && r < 32
    ensures KeepsOthers(p, SetReg(p, r, v), masks) && Reg(SetReg(p, r, v), CC) == Reg(p, CC)
  {
    hide Includes, Has, KeepsOthers;
    IncludedHas(masks.scalarOut, part, r);
    Written(masks, p, r, v);
  }

  lemma MiscWritten(masks: Masks, p: Registers, part: bv32, r: bv32, v: bv32)
    requires Includes(masks.miscOut, part) && 33 <= r < 48 && Has(part, r - 33)
    ensures KeepsOthers(p, SetReg(p, r, v), masks) && Reg(SetReg(p, r, v), CC) == Reg(p, CC)
  {
    hide Includes, Has, KeepsOthers;
    IncludedHas(masks.miscOut, part, r - 33);
    Written(masks, p, r, v);
  }

  lemma FlagsWritten(masks: Masks, p: Registers, v: bv32)
    ensures KeepsOthers(p, SetReg(p, CC, v), masks) && Reg(SetReg(p, CC, v), CC) == v
  {
    hide Reg, SetReg;
    forall s ensures Reg(SetReg(p, CC, v), s) == if CC == s then v else Reg(p, s) { RegAfterSet(p, CC, v, s); }
  }

  lemma KeepsThrough(masks: Masks, p: Registers, q: Registers, r: Registers)
    requires KeepsOthers(p, q, masks) && KeepsOthers(q, r, masks)
    ensures KeepsOthers(p, r, masks)
  {
    hide Reg, Covered;
    forall s | s != CC && !Covered(masks.scalarOut, masks.miscOut, s) ensures Reg(r, s) == Reg(p, s) {
      assert Reg(q, s) == Reg(p, s);
    }
  }

  lemma NothingWritten(masks: Masks, p: Registers)
    ensures KeepsOthers(p, p, masks)
  {
  }

  lemma SameFlags(cc: bv32, miscOut: bv32)
    ensures KeepsFlags(cc, cc, miscOut)
  {
  }

  lemma FlagsIncluded(mask: bv32, part: bv32)
    requires Includes(mask, part)
    ensures Includes(FlagPart(mask), FlagPart(part))
  {
  }

  lemma ChangesLess(cc: bv32, cc': bv32, part: bv32, flags: bv32)
    requires ChangesOnly(cc, cc', part) && Includes(flags, part)
    ensures ChangesOnly(cc, cc', flags)
  {
  }

  lemma FlagsDeclared(cc: bv32, cc': bv32, part: bv32, miscOut: bv32)
    requires ChangesOnly(cc, cc', FlagPart(part)) && Includes(miscOut, part)
    ensures KeepsFlags(cc, cc', miscOut)
  {
    hide ChangesOnly, FlagPart, Includes;
    FlagsIncluded(miscOut, part);
    ChangesLess(cc, cc', FlagPart(part), FlagPart(miscOut));
  }
}
