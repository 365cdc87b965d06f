/** The branch decoder's dependency words are true of the handlers it chooses. */
module SoundEcu {
  import opened Conversions
  import opened DecodeEcu
  import opened Dependencies
  import opened ExecuteEcu
  import opened Handlers
  import opened InstructionEntry
  import opened Machine
  import Mixing
  import opened Words

  predicate Among(h: bv64, first: bv64) { first <= h <= first + 3 }

  lemma VariantsAmong(first: bv64, always: bool, nop: bool)
    requires first <= RTS
    ensures Among(Variant(first, always, nop), first)
  {
  }

  lemma DirectNeeds(g: Fields)
    requires Among(g.handler, BRA) || g.handler == HALT
    ensures Needs(g) == Masks(0, 0, 0, 0) && Fits(g)
  {
  }

  lemma JsrNeeds(g: Fields)
    requires Among(g.handler, JSR)
    ensures Needs(g) == Masks(0, 0, 0, MASK_RZ) && Fits(g)
  {
  }

  lemma JmpIndirectNeeds(g: Fields)
    requires Among(g.handler, JMP_INDIRECT) && Low32(g.f2) < 32
    ensures Needs(g) == Masks(ScalarMask(Low32(g.f2)), 0, 0, 0) && Fits(g)
  {
    hide ScalarMask, Low32;
  }

  lemma JsrIndirectNeeds(g: Fields)
    requires Among(g.handler, JSR_INDIRECT) && Low32(g.f2) < 32
    ensures Needs(g) == Masks(ScalarMask(Low32(g.f2)), 0, 0, MASK_RZ) && Fits(g)
  {
    hide ScalarMask, Low32;
  }

  lemma RtsNeeds(g: Fields)
    requires Among(g.handler, RTS)
    ensures Needs(g) == Masks(0, MASK_RZ, 0, 0) && Fits(g)
  {
  }

  lemma RtiNeeds(g: Fields)
    ensures g.handler == RTI1 || g.handler == RTI1 + 1 ==> Needs(g) == Masks(0, MASK_RZI1, 0, 0) && Fits(g)
    ensures g.handler == RTI2 || g.handler == RTI2 + 1 ==> Needs(g) == Masks(0, MASK_RZI2, 0, 0) && Fits(g)
  {
  }

  /** Words that name a part of what an instruction reads and writes, and maybe more. */
  lemma Named(w: Masks, scalarIn: bv32, miscIn: bv32, miscOut: bv32)
    requires Includes(w.scalarIn, scalarIn) && Includes(w.miscIn, miscIn) && Includes(w.miscOut, miscOut)
    ensures AllInclude(w, Masks(scalarIn, miscIn, 0, miscOut))
  {
    hide Includes;
    NothingIncluded(w.scalarOut);
  }

  lemma GoingTruthful(e: Effects, first: bv64, always: bool, nop: bool, cond: bv32, address: bv64, info: bv32,
                      scalarIn: Update, miscOut: Update, f: Fields, m: Masks)
    requires e == Going(Variant(first, always, nop), cond, address, info, scalarIn, miscOut)
    requires || (first == BRA && scalarIn == Keep && miscOut == Keep)
             || (first == JSR && scalarIn == Keep && miscOut == Replace(MASK_RZ))
             || (first == JMP_INDIRECT && Low32(address) < 32 && scalarIn == Replace(ScalarMask(Low32(address))) && miscOut == Keep)
             || (first == JSR_INDIRECT && Low32(address) < 32 && scalarIn == Replace(ScalarMask(Low32(address))) && miscOut == Replace(MASK_RZ))
    ensures Truthful(Fits, Needs, f, m, e)
  {
    hide Variant, Among, Includes, AllInclude, ScalarMask, Low32, Widen, FlagDependencies, Or, Pick, Updated, Needs, Fits;
    Settings();
    VariantsAmong(first, always, nop);
    var g, w := FieldsAfter(f, e), MasksAfter(m, e);
    NothingIncluded(w.scalarIn);
    NothingIncluded(w.miscIn);
    NothingIncluded(w.miscOut);
    if first == BRA {
      DirectNeeds(g);
      Named(w, 0, 0, 0);
    } else if first == JSR {
      JsrNeeds(g);
      Named(w, 0, 0, MASK_RZ);
    } else if first == JMP_INDIRECT {
      JmpIndirectNeeds(g);
      Named(w, ScalarMask(Low32(address)), 0, 0);
    } else {
      JsrIndirectNeeds(g);
      Named(w, ScalarMask(Low32(address)), 0, MASK_RZ);
    }
  }

  lemma BranchTruthful(cond: bv32, nop: bool, address: bv64, f: Fields, m: Masks)
    ensures Truthful(Fits, Needs, f, m, Branch(cond, nop, address)) && Truthful(Fits, Needs, f, m, Jsr(cond, nop, address))
  {
    hide Truthful, Variant, BranchInfo, JsrInfo, Going, Or;
    var always := cond == CONDITION_T;
    GoingTruthful(Branch(cond, nop, address), BRA, always, nop, cond, address, BranchInfo(always, nop), Keep, Keep, f, m);
    GoingTruthful(Jsr(cond, nop, address), JSR, always, nop, cond, address, JsrInfo(always, nop), Keep, Replace(MASK_RZ), f, m);
  }

  lemma IndirectTruthful(cond: bv32, nop: bool, register: bv32, f: Fields, m: Masks)
    requires register < 32
    ensures Truthful(Fits, Needs, f, m, JmpIndirect(cond, nop, register)) && Truthful(Fits, Needs, f, m, JsrIndirect(cond, nop, register))
  {
    hide Truthful, Variant, BranchInfo, JsrInfo, Going, Or, ScalarMask, Low32, Widen;
    LowOfWidened(register);
    var always, address, source := cond == CONDITION_T, Widen(register), Replace(ScalarMask(register));
    GoingTruthful(JmpIndirect(cond, nop, register), JMP_INDIRECT, always, nop, cond, address, BranchInfo(always, nop), source, Keep, f, m);
    GoingTruthful(JsrIndirect(cond, nop, register), JSR_INDIRECT, always, nop, cond, address, JsrInfo(always, nop), source, Replace(MASK_RZ), f, m);
  }

  lemma ReturnTruthful(b0: Byte, b1: Byte, f: Fields, m: Masks)
    requires ReturnEffects(b0, b1).f0.Set?
    ensures Truthful(Fits, Needs, f, m, ReturnEffects(b0, b1))
  {
    hide Variant, BranchInfo, Among, Includes, AllInclude, Low32, Widen, FlagDependencies, Or, Pick, Updated, Needs, Fits, Cond32,
         ReturnKind, LowestBit;
    Settings();
    var e, cond := ReturnEffects(b0, b1), Cond32(b0, b1);
    var g, w := FieldsAfter(f, e), MasksAfter(m, e);
    NothingIncluded(w.scalarIn);
    NothingIncluded(w.miscIn);
    NothingIncluded(w.miscOut);
    if b1 == 0x01 {
      DirectNeeds(g);
      Named(w, 0, 0, 0);
    } else if ReturnKind(b1) == 0 {
      VariantsAmong(RTS, cond == CONDITION_T, LowestBit(b1));
      RtsNeeds(g);
      IncludesEither(FlagDependencies(cond), MASK_RZ);
      Named(w, 0, MASK_RZ, 0);
    } else if ReturnKind(b1) == 1 {
      RtiNeeds(g);
      IncludesEither(FlagDependencies(cond), MASK_RZI1);
      Named(w, 0, MASK_RZI1, 0);
    } else {
      RtiNeeds(g);
      IncludesEither(FlagDependencies(cond), MASK_RZI2);
      Named(w, 0, MASK_RZI2, 0);
    }
  }

  lemma RegistersBelow32(b1: Byte)
    ensures Register(b1) < 32
  {
  }

  lemma Ecu16Truthful(b0: Byte, b1: Byte, immExt: bv32, pc: bv32, f: Fields, m: Masks)
    requires Ecu16(b0, b1, immExt, pc).f0.Set?
    ensures Truthful(Fits, Needs, f, m, Ecu16(b0, b1, immExt, pc))
  {
    hide Truthful, Branch, ReturnEffects, IsBranch16, BranchCond, BranchNop, BranchOffset, Widen;
    if IsBranch16(b0) {
      BranchTruthful(BranchCond(b0, b1, immExt), BranchNop(b0, immExt), Mixing.Add64(BranchOffset(b0, b1, immExt), Widen(pc)), f, m);
    } else {
      ReturnTruthful(b0, b1, f, m);
    }
  }

  lemma Ecu32Truthful(b0: Byte, b1: Byte, b2: Byte, b3: Byte, immExt: bv32, pc: bv32, f: Fields, m: Masks)
    ensures Truthful(Fits, Needs, f, m, Ecu32(b0, b1, b2, b3, immExt, pc))
  {
    hide Truthful, Branch, Jsr, JmpIndirect, JsrIndirect, Cond32, Nop32, KindOf32, Widen, Sum32, MediumOffset, AbsoluteTarget, Register;
    var cond, nop := Cond32(b0, b1), Nop32(b2);
    RegistersBelow32(b1);
    BranchTruthful(cond, nop, Widen(Sum32(pc, MediumOffset(b1, b2, b3))), f, m);
    BranchTruthful(cond, nop, AbsoluteTarget(b1, b2, b3, immExt), f, m);
    IndirectTruthful(cond, nop, Register(b1), f, m);
  }

  // ---- Conditions and the flags they depend on ----

  predicate AgreeOn(cc: bv32, cc': bv32, flags: bv32) { (cc ^ cc') & flags == 0 }

  lemma LowerConditions(c: bv32, cc: bv32, cc': bv32)
    requires c < 0x10 && AgreeOn(cc, cc', FlagPart(LowerFlags(c)))
    ensures TestAlu(c, cc) == TestAlu(c, cc')
  {
  }

  lemma UpperConditions(c: bv32, cc: bv32, cc': bv32)
    requires 0x10 <= c < 0x20 && AgreeOn(cc, cc', FlagPart(UpperFlags(c)))
    ensures TestOther(c, cc) == TestOther(c, cc')
  {
  }

  predicate OneFlag(flag: bv32) { flag & (flag - 1) == 0 }

  lemma LowerFlagsMatter(c: bv32, flag: bv32)
    requires c < 0x10 && OneFlag(flag) && Names(FlagPart(LowerFlags(c)), flag)
    ensures TestAlu(c, 0) != TestAlu(c, flag)
  {
  }

  lemma UpperFlagsMatter(c: bv32, flag: bv32)
    requires 0x10 <= c < 0x20 && OneFlag(flag) && Names(FlagPart(UpperFlags(c)), flag)
    ensures TestOther(c, 0) != TestOther(c, flag)
  {
  }

  lemma InTable(c: bv32)
    requires c < 32
    ensures c & 0x1F == c
  {
  }

  predicate Names(flags: bv32, flag: bv32) { flag & flags != 0 }

  /** The decoder's table names for every condition the flags that its test looks at: no others matter. */
  lemma TableIsEnough(c: bv32, cc: bv32, cc': bv32)
    requires c < 32 && AgreeOn(cc, cc', FlagPart(FlagDependencies(c)))
    ensures TestCondition(c, cc) == TestCondition(c, cc')
  {
    hide AgreeOn, TestAlu, TestOther, FlagPart, LowerFlags, UpperFlags;
    InTable(c);
    if c < 0x10 { LowerConditions(c, cc, cc'); } else { UpperConditions(c, cc, cc'); }
  }

  /** And each of those that it names does matter. */
  lemma TableIsNeeded(c: bv32, flag: bv32)
    requires c < 32 && OneFlag(flag) && Names(FlagPart(FlagDependencies(c)), flag)
    ensures TestCondition(c, 0) != TestCondition(c, flag)
  {
    hide OneFlag, TestAlu, TestOther, FlagPart, LowerFlags, UpperFlags, Names;
    InTable(c);
    if c < 0x10 { LowerFlagsMatter(c, flag); } else { UpperFlagsMatter(c, flag); }
  }
}
