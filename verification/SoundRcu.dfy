/** The register-unit decoder's dependency words are true of the handlers it chooses. */
module SoundRcu {
  import opened Conversions
  import opened DecodeRcu
  import opened Dependencies
  import opened ExecuteRcu
  import opened Handlers
  import opened InstructionEntry
  import opened Machine
  import opened Words

  /** A handler of the pair that begins with first; the second of them also counts. */
  predicate InPair(h: bv64, first: bv64, b1: Byte) { h == Counting(first, b1) }

  lemma CountsInPair(g: Fields, first: bv64, b1: Byte)
    requires InPair(g.handler, first, b1) && g.f1 == InfoField(b1)
    requires IsFirst(first)
    ensures CountsOf(g) == InfoField(b1)
  {
    hide InfoField;
    NoInfo(b1);
  }

  lemma NoInfo(b1: Byte)
    ensures DecInfo(b1) == 0 ==> InfoField(b1) == 0
  {
  }

  lemma CounterWords(b1: Byte)
    ensures Includes(DecMask(b1), CounterNeeds(InfoField(b1)))
  {
    hide Includes, Or;
    CounterBits(b1);
    CounterJoins();
    NothingIncluded(DecMask(b1));
  }

  lemma CounterBits(b1: Byte)
    ensures Counts0(InfoField(b1)) <==> DecInfo(b1) == 2 || DecInfo(b1) == 3
    ensures Counts1(InfoField(b1)) <==> DecInfo(b1) == 1 || DecInfo(b1) == 3
  {
  }

  lemma CounterJoins()
    ensures Or(0, 0) == 0 && Or(Or(MASK_RC0, FLAG_C0Z), 0) == Or(MASK_RC0, FLAG_C0Z) && Or(0, Or(MASK_RC1, FLAG_C1Z)) == Or(MASK_RC1, FLAG_C1Z)
  {
  }

  predicate IsFirst(first: bv64) {
    first == ADDR_IMMEDIATE || first == ADDR_SCALAR || first == MVR_IMMEDIATE || first == MVR_SCALAR || first == RANGE || first == MODULO
  }

  /** Both handlers of a pair need the same operands. */
  lemma PairNeeds(first: bv64, h: bv64)
    requires IsFirst(first) && (h == first || h == first + 1)
    ensures InUnit(h)
    ensures ReadsScalar(h) == (first == ADDR_SCALAR || first == MVR_SCALAR)
    ensures IsAddr(h) == (first == ADDR_IMMEDIATE || first == ADDR_SCALAR)
    ensures IsRange(h) == (first == RANGE || first == MODULO)
    ensures RANGE <= h < MODULO <==> first == RANGE
  {
  }

  lemma DestBelow4(b0: Byte, b1: Byte)
    ensures DestField(b1) < 4 && SrcField(b0, b1) < 32
  {
  }

  lemma ThroughOr(mask: bv32, was: bv32, x: bv32, y: bv32)
    requires mask == Or(was, Or(x, y))
    ensures Includes(mask, x) && Includes(mask, y)
  {
    hide Includes, Or;
    IncludesEither(was, Or(x, y));
    IncludesEither(x, y);
    IncludesThrough(mask, Or(x, y), x);
    IncludesThrough(mask, Or(x, y), y);
  }

  /** What comes out: index register, flags and counters. */
  lemma ResultsIncluded(g: Fields, first: bv64, b1: Byte, miscOut: bv32, was: bv32, results: bv32)
    requires IsFirst(first) && g.handler == Counting(first, b1) && g.f1 == InfoField(b1) && Low32(g.f3) == DestField(b1)
    requires first == RANGE ==> results == Or(FLAG_MODMI, FLAG_MODGE)
    requires first == MODULO ==> results == Or(Or(FLAG_MODMI, FLAG_MODGE), IndexMask(DestField(b1)))
    requires first != RANGE && first != MODULO ==> results == IndexMask(DestField(b1))
    requires miscOut == Or(was, Or(DecMask(b1), results))
    ensures Includes(miscOut, Needs(g).miscOut)
  {
    hide Includes, Or, IndexMask, DestField, DecMask, InfoField, CountsOf, CounterNeeds, Low32, InUnit, IsRange, IsFirst, OperandNeeds,
         ScalarMask, DecInfo;
    PairNeeds(first, g.handler);
    CountsInPair(g, first, b1);
    CounterWords(b1);
    OrNothing(results);
    ThroughOr(miscOut, was, DecMask(b1), results);
    IncludesThrough(miscOut, DecMask(b1), CounterNeeds(InfoField(b1)));
    IncludesBoth(miscOut, ResultNeeds(g), CounterNeeds(InfoField(b1)));
  }

  /** What goes in: scalars, index registers and ranges. */
  lemma OperandsIncluded(g: Fields, w: Masks, first: bv64, b1: Byte, operands: bv32)
    requires IsFirst(first) && g.handler == Counting(first, b1)
    requires first == ADDR_SCALAR || first == MVR_SCALAR ==> Low32(g.f2) < 32 && Includes(w.scalarIn, ScalarMask(Low32(g.f2)))
    requires first == ADDR_IMMEDIATE || first == ADDR_SCALAR ==> operands == IndexMask(Low32(g.f3))
    requires first == RANGE || first == MODULO ==>
               Low32(g.f2) == Low32(g.f3) && operands == Or(IndexMask(Low32(g.f3)), RangeMask(Low32(g.f3)))
    requires Low32(g.f3) < 4 && Includes(w.miscIn, operands)
    ensures Fits(g) && Includes(w.scalarIn, Needs(g).scalarIn) && Includes(w.miscIn, Needs(g).miscIn)
  {
    hide Includes, Or, IndexMask, RangeMask, ScalarMask, CountsOf, CounterNeeds, ResultNeeds, Low32, InUnit, IsRange, IsAddr, ReadsScalar, DecInfo;
    PairNeeds(first, g.handler);
    NothingIncluded(w.miscIn);
    NothingIncluded(w.scalarIn);
  }

  lemma OperationTruthful(first: bv64, b0: Byte, b1: Byte, src: bv64, scalarIn: Update, operands: bv32, results: bv32, f: Fields, m: Masks)
    requires IsFirst(first)
    requires first == ADDR_SCALAR || first == MVR_SCALAR ==> Low32(src) < 32 && scalarIn == Merge(ScalarMask(Low32(src)))
    requires first == ADDR_IMMEDIATE || first == ADDR_SCALAR ==> operands == IndexMask(DestField(b1))
    requires first == RANGE || first == MODULO ==> src == Widen(DestField(b1)) && operands == Or(IndexMask(DestField(b1)), RangeMask(DestField(b1)))
    requires first == RANGE ==> results == Or(FLAG_MODMI, FLAG_MODGE)
    requires first == MODULO ==> results == Or(Or(FLAG_MODMI, FLAG_MODGE), IndexMask(DestField(b1)))
    requires first != RANGE && first != MODULO ==> results == IndexMask(DestField(b1))
    ensures Truthful(Fits, Needs, f, m, Effect(first, b1, src, scalarIn, Merge(Or(DecMask(b1), operands)), results))
  {
    hide Includes, Or, ScalarMask, IndexMask, RangeMask, DestField, DecMask, InfoField, Low32, Widen, Pick, Updated, Needs, Fits, IsFirst, Counting;
    Settings();
    Merging();
    var e := Effect(first, b1, src, scalarIn, Merge(Or(DecMask(b1), operands)), results);
    var g, w := FieldsAfter(f, e), MasksAfter(m, e);
    DestBelow4(b0, b1);
    LowOfWidened(DestField(b1));
    IncludesEither(m.scalarIn, ScalarMask(Low32(src)));
    ThroughOr(w.miscIn, m.miscIn, DecMask(b1), operands);
    OperandsIncluded(g, w, first, b1, operands);
    ResultsIncluded(g, first, b1, w.miscOut, m.miscOut, results);
    NothingIncluded(w.scalarOut);
    NoScalarOut(g);
  }

  lemma NoScalarOut(g: Fields)
    ensures Needs(g).scalarOut == 0
  {
  }

  lemma CountTruthful(b1: Byte, f: Fields, m: Masks)
    requires CountEffects(b1).f0.Set?
    ensures Truthful(Fits, Needs, f, m, CountEffects(b1))
  {
    hide Includes, Or, DecMask, InfoField, CounterNeeds, Pick, Updated, DecInfo;
    Settings();
    Merging();
    var g, w := FieldsAfter(f, CountEffects(b1)), MasksAfter(m, CountEffects(b1));
    DecInfos(b1);
    InfoNumbers(b1);
    CounterWords(b1);
    IncludesEither(m.miscOut, DecMask(b1));
    IncludesThrough(w.miscOut, DecMask(b1), CounterNeeds(InfoField(b1)));
    OrNothing(CounterNeeds(InfoField(b1)));
    NothingIncluded(w.scalarIn);
    NothingIncluded(w.miscIn);
    NothingIncluded(w.scalarOut);
  }

  lemma InfoNumbers(b1: Byte)
    ensures DecInfo(b1) == 1 ==> InfoField(b1) == DEC_RC1 - DEC_RC1 + 1
    ensures DecInfo(b1) == 2 ==> InfoField(b1) == DEC_RC0 - DEC_RC1 + 1
    ensures DecInfo(b1) == 3 ==> InfoField(b1) == DEC_BOTH - DEC_RC1 + 1
  {
  }

  lemma WordsSame(b1: Byte)
    ensures RangeWord(DestField(b1)) == RangeMask(DestField(b1)) && RangeFlagWord() == Or(FLAG_MODMI, FLAG_MODGE)
    ensures Or(DecMask(b1), 0) == DecMask(b1)
  {
  }

  /** Of whatever bytes that choose a handler, the words are those of the handler. */
  lemma Rcu16Truthful(b0: Byte, b1: Byte, immExt: bv32, f: Fields, m: Masks)
    requires Rcu16(b0, b1, immExt).f0.Set?
    ensures Truthful(Fits, Needs, f, m, Rcu16(b0, b1, immExt))
  {
    hide Truthful, Effect, CountEffects, Or, ScalarMask, IndexMask, RangeMask, RangeWord, RangeFlagWord, DestField, SrcField, DecMask, Low32, Widen,
         IsDecOnly, IsAddrForm, Bit2, Bit1, LongImmediate, ShortImmediate;
    var src, index := SrcField(b0, b1), IndexMask(DestField(b1));
    DestBelow4(b0, b1);
    LowOfWidened(src);
    WordsSame(b1);
    if IsDecOnly(b0, b1) {
      CountTruthful(b1, f, m);
    } else if IsAddrForm(b0) {
      OperationTruthful(AddrHandler(b1), b0, b1, AddrSource(b0, b1, immExt), AddrScalar(b0, b1), index, index, f, m);
    } else if immExt != 0 || !Bit2(b1) {
      OperationTruthful(MvrHandler(immExt), b0, b1, MvrSource(b0, b1, immExt), MvrScalar(b0, b1, immExt), 0, index, f, m);
    } else {
      OperationTruthful(RangeHandler(b0), b0, b1, Widen(DestField(b1)), Keep, RangeIn(b1), RangeOut(b0, b1), f, m);
    }
  }
}
