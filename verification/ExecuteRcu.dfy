/** The handlers of the register unit. */
module ExecuteRcu {
  import opened Conversions
  import opened Dependencies
  import opened Handlers
  import opened Machine
  import opened Mixing
  import opened SignedWords
  import opened Words

  // ---- The counters ----

  function CounterFlags(cc: bv32, zero: bv32, count: bv32): bv32 {
    if count == 0 || count == 1 then SetBits(cc, zero) else ClearBits(cc, zero)
  }

  function Less1(count: bv32): bv32 { if count == 0 then 0 else Sub32(count, 1) }

  /** Counts down to zero, and the flag says whether it has come to zero. */
  function CountDown(regs: Registers, counter: bv32, zero: bv32): Registers {
    SetReg(SetReg(regs, CC, CounterFlags(Reg(regs, CC), zero, Reg(regs, counter))), counter, Less1(Reg(regs, counter)))
  }

  predicate Counts0(info: bv64) { info & 2 != 0 }
  predicate Counts1(info: bv64) { info & 1 != 0 }

  function CountedDown(regs: Registers, info: bv64): Registers {
    var one := if Counts0(info) then CountDown(regs, RC0, COUNTER0_ZERO) else regs;
    if Counts1(info) then CountDown(one, RC1, COUNTER1_ZERO) else one
  }

  // ---- Range and modulo ----

  /** Ten bits of either half, as the integer part of a 16.16 number. */
  function UpperRange(x: bv32): bv32 { x & 0x03FF0000 }
  function LowerRange(x: bv32): bv32 { (x << 16) & 0x03FF0000 }

  function RangeOf(p: Registers, i: bv32): bv32 {
    if i == 0 then UpperRange(Reg(p, XYRANGE))
    else if i == 1 then LowerRange(Reg(p, XYRANGE))
    else if i == 2 then UpperRange(Reg(p, UVRANGE))
    else if i == 3 then LowerRange(Reg(p, UVRANGE))
    else 0
  }

  /** The integer part of a 16.16 number, in place. */
  function WholePart(x: bv32): bv32 { x & 0xFFFF0000 }
  function FractionPart(x: bv32): bv32 { x & 0x0000FFFF }

  predicate Reaches(x: bv32, range: bv32) { Signed(WholePart(x)) >= Signed(range) }
  predicate Negative(x: bv32) { x & 0x80000000 != 0 }

  function RangeFlags(cc: bv32, x: bv32, range: bv32): bv32 {
    var none := ClearBits(cc, 0x180);
    if Reaches(x, range) then SetBits(none, MODGE) else if Negative(x) then SetBits(none, MODMI) else none
  }

  function Wrapped(x: bv32, range: bv32): bv32 {
    if Reaches(x, range) then Sub32(x, range) else if Negative(x) then Add32(x, range) else x
  }

  function NewInteger(before: bv32, result: bv32): bv32 { FractionPart(before) | WholePart(result) }

  // ---- The handlers ----

  predicate InUnit(h: bv64) { ADDR_IMMEDIATE <= h <= MODULO + 1 }

  /** The index registers rx, ry, ru and rv. */
  function IndexReg(i: bv32): bv32 { INDEX + i }

  /** What addr and mvr put into the index register. */
  function NewIndex(f: Fields, p: Registers): bv32 {
    var h, src, dest := f.handler, Low32(f.f2), IndexReg(Low32(f.f3));
    if h < ADDR_SCALAR then Add32(Reg(p, dest), src)
    else if h < MVR_IMMEDIATE then Add32(Reg(p, dest), Reg(p, src))
    else if h < MVR_SCALAR then src
    else Reg(p, src)
  }

  /** The index register operations, each with a neighbour that also counts down. */
  function Operated(f: Fields, regs: Registers, p: Registers): Registers {
    var src, dest := Low32(f.f2), IndexReg(Low32(f.f3));
    if f.handler < RANGE then SetReg(regs, dest, NewIndex(f, p))
    else
      var x, range := Reg(p, IndexReg(src)), RangeOf(p, src);
      var flagged := SetReg(regs, CC, RangeFlags(Reg(regs, CC), x, range));
      if f.handler < MODULO then flagged else SetReg(flagged, dest, NewInteger(Reg(p, dest), Wrapped(x, range)))
  }

  predicate AlsoCounts(h: bv64) { (h - ADDR_IMMEDIATE) & 1 == 1 }

  function Registers'(f: Fields, regs: Registers, p: Registers): Registers {
    var h := f.handler;
    if DEC_RC1 <= h <= DEC_BOTH then CountedDown(regs, h - DEC_RC1 + 1)
    else if !InUnit(h) then regs
    else if AlsoCounts(h) then CountedDown(Operated(f, regs, p), f.f1)
    else Operated(f, regs, p)
  }

  function Execute(f: Fields, m: State, p: Registers): State {
    m.(regs := Registers'(f, m.regs, p))
  }

  // ---- What the handlers read and write ----

  function CounterNeeds(info: bv64): bv32 {
    Or(if Counts0(info) then Or(MASK_RC0, FLAG_C0Z) else 0, if Counts1(info) then Or(MASK_RC1, FLAG_C1Z) else 0)
  }

  predicate ReadsScalar(h: bv64) { ADDR_SCALAR <= h < MVR_IMMEDIATE || MVR_SCALAR <= h < RANGE }
  predicate IsAddr(h: bv64) { ADDR_IMMEDIATE <= h < MVR_IMMEDIATE }
  predicate IsRange(h: bv64) { RANGE <= h <= MODULO + 1 }

  function RangeMask(i: bv32): bv32 { if i <= 1 then MASK_XYRANGE else MASK_UVRANGE }

  function OperandNeeds(f: Fields): bv32 {
    var h, src, dest := f.handler, Low32(f.f2), Low32(f.f3);
    if IsAddr(h) then IndexMask(dest) else if IsRange(h) then Or(IndexMask(src), RangeMask(src)) else 0
  }

  function ResultNeeds(f: Fields): bv32 {
    Or(if IsRange(f.handler) then Or(FLAG_MODMI, FLAG_MODGE) else 0,
       if RANGE <= f.handler < MODULO then 0 else IndexMask(Low32(f.f3)))
  }

  function CountsOf(f: Fields): bv64 {
    if DEC_RC1 <= f.handler <= DEC_BOTH then f.handler - DEC_RC1 + 1 else if AlsoCounts(f.handler) then f.f1 else 0
  }

  function Needs(f: Fields): Masks {
    Masks(if ReadsScalar(f.handler) then ScalarMask(Low32(f.f2)) else 0,
          if InUnit(f.handler) then OperandNeeds(f) else 0, 0,
          Or(if InUnit(f.handler) then ResultNeeds(f) else 0, CounterNeeds(CountsOf(f))))
  }

  /** The handler is one of the unit's, and operands name registers that exist. A modulo reads the register that it writes. */
  predicate Fits(f: Fields) {
    var h, src, dest := f.handler, Low32(f.f2), Low32(f.f3);
    && (InUnit(h) || DEC_RC1 <= h <= DEC_BOTH)
    && (InUnit(h) ==> dest < 4 && (ReadsScalar(h) ==> src < 32) && (IsRange(h) ==> src == dest))
  }

  lemma MiscBits()
    ensures Has(MASK_XYRANGE, XYRANGE - 33) && Has(MASK_UVRANGE, UVRANGE - 33)
    ensures Has(MASK_RC0, RC0 - 33) && Has(MASK_RC1, RC1 - 33)
  {
  }

  lemma IndexBit(dest: bv32)
    requires dest < 4
    ensures Has(IndexMask(dest), IndexReg(dest) - 33) && 33 <= IndexReg(dest) < 48 && IndexReg(dest) != CC
  {
  }

  lemma RangeReads(masks: Masks, p: Registers, q: Registers, i: bv32)
    requires Agree(p, q, masks) && Includes(masks.miscIn, RangeMask(i))
    ensures RangeOf(p, i) == RangeOf(q, i)
  {
    hide Agree, Includes, Has, Reg;
    MiscBits();
    MiscAgrees(masks, p, q, RangeMask(i), if i <= 1 then XYRANGE else UVRANGE);
  }

  lemma OperandReads(f: Fields, masks: Masks, p: Registers, q: Registers)
    requires Agree(p, q, masks) && Fits(f) && AllInclude(masks, Needs(f)) && InUnit(f.handler)
    ensures IsAddr(f.handler) || IsRange(f.handler) ==> Reg(p, IndexReg(Low32(f.f3))) == Reg(q, IndexReg(Low32(f.f3)))
    ensures IsRange(f.handler) ==> RangeOf(p, Low32(f.f2)) == RangeOf(q, Low32(f.f2))
    ensures ReadsScalar(f.handler) ==> Reg(p, Low32(f.f2)) == Reg(q, Low32(f.f2))
  {
    hide Agree, Includes, Has, Reg, ScalarMask, IndexMask, RangeMask, RangeOf, Low32, Or, ResultNeeds, CounterNeeds, CountsOf;
    var dest := Low32(f.f3);
    IndexBit(dest);
    if IsRange(f.handler) {
      IncludesParts(masks.miscIn, IndexMask(dest), RangeMask(dest));
      RangeReads(masks, p, q, dest);
    }
    if IsAddr(f.handler) || IsRange(f.handler) { MiscAgrees(masks, p, q, IndexMask(dest), IndexReg(dest)); }
    if ReadsScalar(f.handler) { ScalarAgrees(masks, p, q, Low32(f.f2)); }
  }

  lemma Reads(f: Fields, masks: Masks, regs: Registers, p: Registers, q: Registers)
    requires Agree(p, q, masks) && Fits(f) && AllInclude(masks, Needs(f))
    ensures Registers'(f, regs, p) == Registers'(f, regs, q)
  {
    hide Agree, AllInclude, Reg, SetReg, Needs, RangeOf, Low32, CountedDown, Wrapped, NewInteger, RangeFlags, AlsoCounts;
    if InUnit(f.handler) { OperandReads(f, masks, p, q); }
  }

  // ---- What they leave alone ----

  lemma CounterFlag(cc: bv32, zero: bv32, count: bv32)
    ensures ChangesOnly(cc, CounterFlags(cc, zero, count), zero)
  {
    hide ChangesOnly, SetBits, ClearBits;
    FlagSet(cc, zero);
    FlagCleared(cc, zero);
  }

  lemma FlagSet(cc: bv32, zero: bv32)
    ensures ChangesOnly(cc, SetBits(cc, zero), zero)
  {
  }

  lemma FlagCleared(cc: bv32, zero: bv32)
    ensures ChangesOnly(cc, ClearBits(cc, zero), zero)
  {
  }

  lemma RangeFlag(cc: bv32, x: bv32, range: bv32)
    ensures ChangesOnly(cc, RangeFlags(cc, x, range), 0x180)
  {
    hide Reaches, Negative, ChangesOnly, SetBits, ClearBits;
    RangeFlagSet(cc);
    RangeFlagsCleared(cc);
  }

  lemma RangeFlagSet(cc: bv32)
    ensures ChangesOnly(cc, SetBits(ClearBits(cc, 0x180), MODGE), 0x180) && ChangesOnly(cc, SetBits(ClearBits(cc, 0x180), MODMI), 0x180)
  {
  }

  lemma RangeFlagsCleared(cc: bv32)
    ensures ChangesOnly(cc, ClearBits(cc, 0x180), 0x180)
  {
  }

  lemma FlagWords()
    ensures FlagPart(FLAG_C0Z) == COUNTER0_ZERO && FlagPart(FLAG_C1Z) == COUNTER1_ZERO
    ensures FlagPart(Or(FLAG_MODMI, FLAG_MODGE)) == 0x180
  {
  }

  lemma CountDownWrites(masks: Masks, regs: Registers, counter: bv32, zero: bv32, part: bv32, flag: bv32)
    requires Includes(masks.miscOut, Or(part, flag)) && 33 <= counter < 48 && Has(part, counter - 33) && FlagPart(flag) == zero
    ensures KeepsOthers(regs, CountDown(regs, counter, zero), masks)
    ensures KeepsFlags(Reg(regs, CC), Reg(CountDown(regs, counter, zero), CC), masks.miscOut)
  {
    hide KeepsOthers, KeepsFlags, Includes, Has, Reg, SetReg, CounterFlags, Less1, Or, FlagPart, ChangesOnly;
    IncludesParts(masks.miscOut, part, flag);
    var count := Reg(regs, counter);
    var cc := CounterFlags(Reg(regs, CC), zero, count);
    var flagged := SetReg(regs, CC, cc);
    CounterFlag(Reg(regs, CC), zero, count);
    FlagsDeclared(Reg(regs, CC), cc, flag, masks.miscOut);
    FlagsWritten(masks, regs, cc);
    MiscWritten(masks, flagged, part, counter, Less1(count));
    KeepsThrough(masks, regs, flagged, SetReg(flagged, counter, Less1(count)));
  }

  lemma FlagsThrough(a: bv32, b: bv32, c: bv32, miscOut: bv32)
    requires KeepsFlags(a, b, miscOut) && KeepsFlags(b, c, miscOut)
    ensures KeepsFlags(a, c, miscOut)
  {
    hide FlagPart;
    ChangesThrough(a, b, c, FlagPart(miscOut));
  }

  lemma ChangesThrough(a: bv32, b: bv32, c: bv32, flags: bv32)
    requires ChangesOnly(a, b, flags) && ChangesOnly(b, c, flags)
    ensures ChangesOnly(a, c, flags)
  {
  }

  lemma CountedDownWrites(masks: Masks, regs: Registers, info: bv64)
    requires Includes(masks.miscOut, CounterNeeds(info))
    ensures KeepsOthers(regs, CountedDown(regs, info), masks)
    ensures KeepsFlags(Reg(regs, CC), Reg(CountedDown(regs, info), CC), masks.miscOut)
  {
    hide KeepsOthers, KeepsFlags, Includes, Has, Reg, CountDown, Or, FlagPart, Counts0, Counts1;
    MiscBits();
    FlagWords();
    NothingWritten(masks, regs);
    SameFlags(Reg(regs, CC), masks.miscOut);
    IncludesParts(masks.miscOut, if Counts0(info) then Or(MASK_RC0, FLAG_C0Z) else 0, if Counts1(info) then Or(MASK_RC1, FLAG_C1Z) else 0);
    var one := if Counts0(info) then CountDown(regs, RC0, COUNTER0_ZERO) else regs;
    if Counts0(info) { CountDownWrites(masks, regs, RC0, COUNTER0_ZERO, MASK_RC0, FLAG_C0Z); }
    if Counts1(info) {
      CountDownWrites(masks, one, RC1, COUNTER1_ZERO, MASK_RC1, FLAG_C1Z);
      var two := CountDown(one, RC1, COUNTER1_ZERO);
      KeepsThrough(masks, regs, one, two);
      FlagsThrough(Reg(regs, CC), Reg(one, CC), Reg(two, CC), masks.miscOut);
    }
  }

  lemma IndexWritten(masks: Masks, p: Registers, dest: bv32, v: bv32)
    requires Includes(masks.miscOut, IndexMask(dest)) && dest < 4
    ensures KeepsOthers(p, SetReg(p, IndexReg(dest), v), masks) && Reg(SetReg(p, IndexReg(dest), v), CC) == Reg(p, CC)
  {
    hide KeepsOthers, Includes, Has, Reg, SetReg, IndexMask;
    IndexBit(dest);
    MiscWritten(masks, p, IndexMask(dest), IndexReg(dest), v);
  }

  lemma RangeWrites(f: Fields, masks: Masks, regs: Registers, x: bv32, range: bv32)
    requires Includes(masks.miscOut, Or(FLAG_MODMI, FLAG_MODGE))
    ensures var flagged := SetReg(regs, CC, RangeFlags(Reg(regs, CC), x, range));
            KeepsOthers(regs, flagged, masks) && KeepsFlags(Reg(regs, CC), Reg(flagged, CC), masks.miscOut)
  {
    hide KeepsOthers, KeepsFlags, Includes, Reg, SetReg, RangeFlags, Or, FlagPart, ChangesOnly;
    var cc := RangeFlags(Reg(regs, CC), x, range);
    RangeFlag(Reg(regs, CC), x, range);
    FlagWords();
    FlagsDeclared(Reg(regs, CC), cc, Or(FLAG_MODMI, FLAG_MODGE), masks.miscOut);
    FlagsWritten(masks, regs, cc);
  }

  lemma OperatedWrites(f: Fields, masks: Masks, regs: Registers, p: Registers)
    requires Fits(f) && Includes(masks.miscOut, ResultNeeds(f)) && InUnit(f.handler)
    ensures KeepsOthers(regs, Operated(f, regs, p), masks)
    ensures KeepsFlags(Reg(regs, CC), Reg(Operated(f, regs, p), CC), masks.miscOut)
  {
    hide KeepsOthers, KeepsFlags, Includes, Reg, SetReg, IndexMask, RangeFlags, RangeOf, Wrapped, NewInteger, NewIndex, Low32, Or;
    var src, dest := Low32(f.f2), Low32(f.f3);
    SameFlags(Reg(regs, CC), masks.miscOut);
    IncludesParts(masks.miscOut, if IsRange(f.handler) then Or(FLAG_MODMI, FLAG_MODGE) else 0,
                  if RANGE <= f.handler < MODULO then 0 else IndexMask(dest));
    if !IsRange(f.handler) {
      IndexWritten(masks, regs, dest, NewIndex(f, p));
    } else {
      var x, range := Reg(p, IndexReg(src)), RangeOf(p, src);
      var flagged := SetReg(regs, CC, RangeFlags(Reg(regs, CC), x, range));
      RangeWrites(f, masks, regs, x, range);
      if f.handler >= MODULO {
        var v := NewInteger(Reg(p, IndexReg(dest)), Wrapped(x, range));
        IndexWritten(masks, flagged, dest, v);
        KeepsThrough(masks, regs, flagged, SetReg(flagged, IndexReg(dest), v));
      }
    }
  }

  lemma Writes(f: Fields, masks: Masks, regs: Registers, p: Registers)
    requires Fits(f) && AllInclude(masks, Needs(f))
    ensures KeepsOthers(regs, Registers'(f, regs, p), masks)
    ensures KeepsFlags(Reg(regs, CC), Reg(Registers'(f, regs, p), CC), masks.miscOut)
  {
    hide KeepsOthers, KeepsFlags, Includes, Reg, Operated, CountedDown, ResultNeeds, CounterNeeds, OperandNeeds, Fits, InUnit, AlsoCounts, Or,
         ScalarMask, Low32;
    var h := f.handler;
    NothingWritten(masks, regs);
    SameFlags(Reg(regs, CC), masks.miscOut);
    IncludesParts(masks.miscOut, if InUnit(h) then ResultNeeds(f) else 0, CounterNeeds(CountsOf(f)));
    if DEC_RC1 <= h <= DEC_BOTH {
      CountedDownWrites(masks, regs, h - DEC_RC1 + 1);
    } else if InUnit(h) {
      OperatedWrites(f, masks, regs, p);
      if AlsoCounts(h) {
        var one := Operated(f, regs, p);
        CountedDownWrites(masks, one, f.f1);
        KeepsThrough(masks, regs, one, CountedDown(one, f.f1));
        FlagsThrough(Reg(regs, CC), Reg(one, CC), Reg(CountedDown(one, f.f1), CC), masks.miscOut);
      }
    }
  }

  function Bound(f: Fields): Handler { (m: State, p: Registers, cc: bv32) => Execute(f, m, p) }

  /** Words that include what a handler needs are true of it. */
  lemma HandlerSound(f: Fields, masks: Masks)
    requires Fits(f) && AllInclude(masks, Needs(f))
    ensures Sound(Instruction(Bound(f), masks))
  {
    hide Agree, Includes, KeepsOthers, KeepsFlags, Registers', Needs, Fits, AllInclude, Reg;
    forall m: State, p: Registers, q: Registers | Agree(p, q, masks) ensures Execute(f, m, p) == Execute(f, m, q) {
      Reads(f, masks, m.regs, p, q);
    }
    forall m: State, p: Registers
      ensures KeepsOthers(m.regs, Execute(f, m, p).regs, masks)
      ensures KeepsFlags(Reg(m.regs, CC), Reg(Execute(f, m, p).regs, CC), masks.miscOut)
    {
      Writes(f, masks, m.regs, p);
    }
  }
}
