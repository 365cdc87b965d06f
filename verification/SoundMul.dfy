/** The multiplier decoder's dependency words are true of the handlers it chooses. */
module SoundMul {
  import opened Conversions
  import opened DecodeMul
  import opened Dependencies
  import opened ExecuteMul
  import opened Handlers
  import opened InstructionEntry
  import opened Machine
  import opened Words

  // ---- Sums and scalar products ----

  lemma SumsTruthful(h: bv64, j: bv32, i: bv32, k: bv32, f: Fields, m: Masks)
    requires IsSum(h) && j < 32 && i < 32 && k < 32
    ensures Truthful(Fits, Needs, f, m, Sums(h, j, i, k))
  {
    hide Includes, ScalarMask, Or, Low32, Widen, IsLanes, IsDot, IsScalar, IsSum, ShiftByScalar, Pick, Updated;
    Settings();
    LowOfWidened(j);
    LowOfWidened(i);
    LowOfWidened(k);
    NothingIncluded(Or(ScalarMask(j), ScalarMask(i)));
    NothingIncluded(ScalarMask(k));
    NothingIncluded(m.miscIn);
    NothingIncluded(m.miscOut);
    Families(h);
  }

  lemma ScalarNeeds(g: Fields, w: Masks, i: bv32, j: bv32, d: bv32)
    requires IsScalar(g.handler) && i < 32 && j < 32 && d < 32
    requires Low32(g.f2) == i && Low32(g.f3) == j && Low32(g.f4) == d
    requires Includes(w.scalarIn, ScalarMask(j)) && (!ImmediateTimes(g.handler) ==> Includes(w.scalarIn, ScalarMask(i)))
    requires ShiftByScalar(g.handler) ==> Low32(g.f1) < 32 && Includes(w.scalarIn, ScalarMask(Low32(g.f1)))
    requires ShiftByAcshift(g.handler) ==> w.miscIn == MASK_ACSHIFT
    requires w.scalarOut == ScalarMask(d) && w.miscOut == FLAG_MV
    ensures Fits(g) && AllInclude(w, Needs(g))
  {
    hide Includes, ScalarMask, Or, Low32, IsLanes, IsDot, IsSum, IsScalar, ImmediateTimes, ShiftByScalar, ShiftByAcshift;
    var h := g.handler;
    Families(h);
    NothingIncluded(w.scalarIn);
    NothingIncluded(w.miscIn);
    NothingIncluded(w.scalarOut);
    NothingIncluded(w.miscOut);
    var first := if ImmediateTimes(h) then 0 else ScalarMask(i);
    var shift := if ShiftByScalar(h) then ScalarMask(Low32(g.f1)) else 0;
    IncludesBoth(w.scalarIn, first, shift);
    IncludesBoth(w.scalarIn, ScalarMask(j), Or(first, shift));
  }

  /** A scalar product, its shift from wherever its handler takes it. */
  lemma ScalarTruthful(h: bv64, info: Field, i: bv32, j: bv32, d: bv32, scalarIn: bv32, miscIn: Update, f: Fields, m: Masks)
    requires IsScalar(h) && i < 32 && j < 32 && d < 32
    requires Includes(scalarIn, ScalarMask(j)) && (!ImmediateTimes(h) ==> Includes(scalarIn, ScalarMask(i)))
    requires ShiftByScalar(h) ==> info.Set? && Low32(info.value) < 32 && Includes(scalarIn, ScalarMask(Low32(info.value)))
    requires ShiftByAcshift(h) ==> miscIn == Replace(MASK_ACSHIFT)
    ensures Truthful(Fits, Needs, f, m, Effect(h, info, Word(i), j, d, scalarIn, miscIn, ScalarMask(d), Replace(FLAG_MV)))
  {
    hide Pick, Updated, Includes, ScalarMask, Low32, Widen, IsScalar, ImmediateTimes, ShiftByScalar, ShiftByAcshift, Fits, Needs, AllInclude;
    var e := Effect(h, info, Word(i), j, d, scalarIn, miscIn, ScalarMask(d), Replace(FLAG_MV));
    LowOfWidened(j);
    LowOfWidened(i);
    LowOfWidened(d);
    Settings();
    ScalarNeeds(FieldsAfter(f, e), MasksAfter(m, e), i, j, d);
  }

  lemma ScalarHandlers()
    ensures IsScalar(MUL_SCALAR_ACSHIFT) && ShiftByAcshift(MUL_SCALAR_ACSHIFT) && !ShiftByScalar(MUL_SCALAR_ACSHIFT)
    ensures IsScalar(MUL_SCALAR_RIGHT) && !ShiftByAcshift(MUL_SCALAR_RIGHT) && !ShiftByScalar(MUL_SCALAR_RIGHT)
    ensures IsScalar(MUL_SCALAR_LEFT) && !ShiftByAcshift(MUL_SCALAR_LEFT) && !ShiftByScalar(MUL_SCALAR_LEFT)
    ensures IsScalar(MUL_SCALAR_SCALAR) && !ShiftByAcshift(MUL_SCALAR_SCALAR)
    ensures IsScalar(MUL_IMMEDIATE_ACSHIFT) && ImmediateTimes(MUL_IMMEDIATE_ACSHIFT) && !ShiftByScalar(MUL_IMMEDIATE_ACSHIFT)
    ensures IsScalar(MUL_IMMEDIATE_SCALAR) && ImmediateTimes(MUL_IMMEDIATE_SCALAR) && !ShiftByAcshift(MUL_IMMEDIATE_SCALAR)
    ensures IsScalar(MUL_IMMEDIATE_RIGHT) && ImmediateTimes(MUL_IMMEDIATE_RIGHT)
    ensures IsScalar(MUL_IMMEDIATE_LEFT) && ImmediateTimes(MUL_IMMEDIATE_LEFT)
    ensures !ShiftByAcshift(MUL_IMMEDIATE_RIGHT) && !ShiftByScalar(MUL_IMMEDIATE_RIGHT)
    ensures !ShiftByAcshift(MUL_IMMEDIATE_LEFT) && !ShiftByScalar(MUL_IMMEDIATE_LEFT)
  {
  }

  lemma ByAcshiftTruthful(i: bv32, j: bv32, k: bv32, f: Fields, m: Masks)
    requires i < 32 && j < 32 && k < 32
    ensures Truthful(Fits, Needs, f, m, ScalarByAcshift(i, j, k))
  {
    hide Truthful, Effect, Includes, ScalarMask, Or, IsScalar, ImmediateTimes, ShiftByScalar, ShiftByAcshift;
    ScalarHandlers();
    IncludesEither(ScalarMask(j), ScalarMask(i));
    ScalarTruthful(MUL_SCALAR_ACSHIFT, Leave, i, j, k, Or(ScalarMask(j), ScalarMask(i)), Replace(MASK_ACSHIFT), f, m);
  }

  lemma ShiftedTruthful(i: bv32, j: bv32, k: bv32, b3: Byte, f: Fields, m: Masks)
    requires i < 32 && j < 32 && k < 32
    ensures Truthful(Fits, Needs, f, m, ScalarShifted(i, j, k, b3))
  {
    hide Truthful, Effect, Includes, ScalarMask, Or, IsScalar, ImmediateTimes, ShiftByScalar, ShiftByAcshift, Marked, ShiftsRight, ShiftSize, ScalarByAcshift, Widen;
    ScalarHandlers();
    IncludesEither(ScalarMask(j), ScalarMask(i));
    ByAcshiftTruthful(i, j, k, f, m);
    ScalarTruthful(Directed(b3, MUL_SCALAR_RIGHT, MUL_SCALAR_LEFT), Word(ShiftSize(b3)), i, j, j,
                   Or(ScalarMask(j), ScalarMask(i)), Keep, f, m);
  }

  lemma ByRegisterTruthful(i: bv32, j: bv32, k: bv32, b3: Byte, f: Fields, m: Masks)
    requires i < 32 && j < 32 && k < 32
    ensures Truthful(Fits, Needs, f, m, ShiftedByRegister(i, j, k, b3))
  {
    hide Truthful, Effect, Includes, ScalarMask, Or, Low32, Widen, IsScalar, ImmediateTimes, ShiftByScalar, ShiftByAcshift, Marked;
    ScalarHandlers();
    LowOfWidened(k);
    var two := Or(ScalarMask(j), ScalarMask(i));
    IncludesEither(ScalarMask(j), ScalarMask(i));
    IncludesEither(two, ScalarMask(k));
    IncludesThrough(Or(two, ScalarMask(k)), two, ScalarMask(j));
    IncludesThrough(Or(two, ScalarMask(k)), two, ScalarMask(i));
    NothingIncluded(ScalarMask(j));
    if Marked(b3) {
      ScalarTruthful(MUL_IMMEDIATE_ACSHIFT, Leave, i, j, k, ScalarMask(j), Replace(MASK_ACSHIFT), f, m);
    } else {
      ScalarTruthful(MUL_SCALAR_SCALAR, Word(k), i, j, j, Or(two, ScalarMask(k)), Keep, f, m);
    }
  }

  lemma ImmediateTruthful(i: bv32, j: bv32, k: bv32, b3: Byte, f: Fields, m: Masks)
    requires i < 32 && j < 32 && k < 32
    ensures Truthful(Fits, Needs, f, m, ImmediateProduct(i, j, k, b3))
  {
    hide Truthful, Effect, Includes, ScalarMask, Or, Low32, Widen, IsScalar, ImmediateTimes, ShiftByScalar, ShiftByAcshift, Marked, ShiftsRight, ShiftSize;
    ScalarHandlers();
    LowOfWidened(k);
    IncludesEither(ScalarMask(j), ScalarMask(k));
    NothingIncluded(ScalarMask(j));
    if Marked(b3) {
      ScalarTruthful(MUL_IMMEDIATE_SCALAR, Word(k), i, j, j, Or(ScalarMask(j), ScalarMask(k)), Keep, f, m);
    } else {
      ScalarTruthful(Directed(b3, MUL_IMMEDIATE_RIGHT, MUL_IMMEDIATE_LEFT), Word(ShiftSize(b3)), i, j, j, ScalarMask(j), Keep, f, m);
    }
  }

  // ---- Products of vectors ----

  /** The handlers for an immediate shift and for svshift. */
  predicate Pair(first: bv64, s: Shape, dot: bool) {
    && ShapeOf(first) == s && ShapeOf(first + 1) == s.(svshift := true) && !s.svshift
    && IsLanes(first) == IsLanes(first + 1) == !dot && IsDot(first) == IsDot(first + 1) == dot
    && !IsSum(first) && !IsSum(first + 1) && !IsScalar(first) && !IsScalar(first + 1)
    && !ShiftByScalar(first) && !ShiftByScalar(first + 1)
  }

  lemma LanePairs()
    ensures Pair(MUL_SV_SCALAR, Shape(4, ByScalar, false), false)
    ensures Pair(MUL_SV_RU, Shape(4, ByRu, false), false)
    ensures Pair(MUL_SV_RV, Shape(4, ByRv, false), false)
    ensures Pair(MUL_SV_VECTOR, Shape(4, ByVector, false), false)
    ensures Pair(MUL_P_SCALAR, Shape(3, ByScalar, false), false)
    ensures Pair(MUL_P_RU, Shape(3, ByRu, false), false)
    ensures Pair(MUL_P_RV, Shape(3, ByRv, false), false)
    ensures Pair(MUL_P_VECTOR, Shape(3, ByVector, false), false)
    ensures Pair(DOTP_SCALAR, Shape(4, ByScalar, false), true)
    ensures Pair(DOTP_VECTOR, Shape(4, ByVector, false), true)
  {
  }

  lemma EndTruthful(misc: bv32, b3: Byte, was: bv32)
    ensures Includes(Updated(EndMisc(misc, b3), was), Or(misc, if Marked(b3) then 0 else MASK_SVSHIFT))
  {
    hide Includes, Or, Marked;
    NoMisc();
    NothingIncluded(was);
    NothingIncluded(MASK_SVSHIFT);
    MiscAlone(misc);
    NothingIncluded(misc);
    NothingIncluded(Or(misc, MASK_SVSHIFT));
  }

  lemma NoMisc()
    ensures Or(0, 0) == 0 && Or(0, MASK_SVSHIFT) == MASK_SVSHIFT
  {
  }

  lemma MiscAlone(misc: bv32)
    ensures Or(misc, 0) == misc
  {
  }

  lemma ProductNeeds(g: Fields, w: Masks, s: Shape, dot: bool, s1: bv32, s2: bv32, d: bv32)
    requires ShapeOf(g.handler) == s && IsLanes(g.handler) == !dot && IsDot(g.handler) == dot
    requires !IsSum(g.handler) && !IsScalar(g.handler) && !ShiftByScalar(g.handler)
    requires IsVector(s2) && d < 32 && (!dot ==> IsVector(d)) && FactorFits(s.factor, s1)
    requires (s.factor.ByScalar? || s.factor.ByVector? ==> Low32(g.f2) == s1) && Low32(g.f3) == s2 && Low32(g.f4) == d
    requires Includes(w.scalarIn, LaneMask(s.lanes, s2)) && Includes(w.scalarIn, FactorMask(s.factor, s.lanes, s1))
    requires Includes(w.miscIn, Or(FactorMisc(s.factor), ShiftMisc(s)))
    requires w.scalarOut == if dot then ScalarMask(d) else LaneMask(s.lanes, d)
    ensures Fits(g) && AllInclude(w, Needs(g))
  {
    hide Includes, ScalarMask, LaneMask, FactorMisc, ShiftMisc, Or, Low32, IsLanes, IsDot, IsSum, IsScalar, ShapeOf, ShiftByScalar, IsVector;
    IncludesBoth(w.scalarIn, LaneMask(s.lanes, s2), FactorMask(s.factor, s.lanes, s1));
    VectorEnds(s2);
    NothingIncluded(w.scalarOut);
    NothingIncluded(w.miscOut);
  }

  lemma ProductTruthful(first: bv64, s: Shape, dot: bool, src1: Field, s1: bv32, s2: bv32, d: bv32, scalarIn: bv32, b3: Byte,
                        f: Fields, m: Masks)
    requires Pair(first, s, dot) && IsVector(s2) && d < 32 && (!dot ==> IsVector(d)) && FactorFits(s.factor, s1)
    requires s.factor.ByScalar? || s.factor.ByVector? ==> src1 == Word(s1)
    requires Includes(scalarIn, LaneMask(s.lanes, s2)) && Includes(scalarIn, FactorMask(s.factor, s.lanes, s1))
    ensures Truthful(Fits, Needs, f, m, SmallShift(first, src1, s2, d, scalarIn, if dot then ScalarMask(d) else LaneMask(s.lanes, d), FactorMisc(s.factor), b3))
  {
    hide Includes, ScalarMask, LaneMask, FactorMask, FactorMisc, FactorFits, Or, Low32, Widen, IsLanes, IsDot, IsSum, IsScalar, ShapeOf,
         ShiftByScalar, IsVector, Marked, TwoBits, EndMisc, EndInfo, Updated, Pick, Fits, Needs, AllInclude;
    var out := if dot then ScalarMask(d) else LaneMask(s.lanes, d);
    var e := SmallShift(first, src1, s2, d, scalarIn, out, FactorMisc(s.factor), b3);
    LowOfWidened(s1);
    LowOfWidened(s2);
    LowOfWidened(d);
    EndTruthful(FactorMisc(s.factor), b3, m.miscIn);
    Settings();
    ProductNeeds(FieldsAfter(f, e), MasksAfter(m, e), if Marked(b3) then s else s.(svshift := true), dot, s1, s2, d);
  }

  lemma ByScalarTruthful(kind: Byte, j: bv32, i: bv32, k: bv32, b3: Byte, f: Fields, m: Masks)
    requires (kind == 0x04 || kind == 0x08 || kind == 0x0C) && j < 32 && i < 32 && k < 32
    ensures Truthful(Fits, Needs, f, m, Products(kind, j, i, k, b3))
  {
    hide Truthful, SmallShift, Includes, ScalarMask, VectorMask, PixelMask, Or, VectorOf, IsVector, Pair, Widen, RuAndControl, RvAndControl;
    var (vj, vi, vk) := (VectorOf(j), VectorOf(i), VectorOf(k));
    LanePairs();
    VectorsBegin(j);
    VectorsBegin(i);
    VectorsBegin(k);
    IncludesEither(ScalarMask(j), VectorMask(vi));
    IncludesEither(ScalarMask(j), PixelMask(vi));
    if kind == 0x04 {
      ProductTruthful(MUL_SV_SCALAR, Shape(4, ByScalar, false), false, Word(j), j, vi, vk, Or(ScalarMask(j), VectorMask(vi)), b3, f, m);
    } else if kind == 0x08 {
      ProductTruthful(MUL_P_SCALAR, Shape(3, ByScalar, false), false, Word(j), j, vi, vk, Or(ScalarMask(j), PixelMask(vi)), b3, f, m);
    } else {
      ProductTruthful(DOTP_SCALAR, Shape(4, ByScalar, false), true, Word(j), j, vi, k, Or(ScalarMask(j), VectorMask(vi)), b3, f, m);
    }
  }

  lemma LanesOfVectors()
    ensures forall r :: LaneMask(4, r) == VectorMask(r) && LaneMask(3, r) == PixelMask(r)
    ensures forall r :: FactorMask(ByVector, 4, r) == VectorMask(r) && FactorMask(ByVector, 3, r) == PixelMask(r)
    ensures forall r :: FactorFits(ByVector, r) <==> IsVector(r)
    ensures FactorMisc(ByVector) == 0
  {
    hide VectorMask, PixelMask, IsVector;
  }

  lemma ByVectorTruthful(kind: Byte, j: bv32, i: bv32, k: bv32, b3: Byte, f: Fields, m: Masks)
    requires (kind == 0x07 || kind == 0x0B || kind == 0x0D) && j < 32 && i < 32 && k < 32
    ensures Truthful(Fits, Needs, f, m, Products(kind, j, i, k, b3))
  {
    hide Truthful, SmallShift, LaneMask, FactorMask, FactorFits, FactorMisc, Includes, ScalarMask, VectorMask, PixelMask, Or, VectorOf, IsVector, Pair, Widen, RuAndControl, RvAndControl;
    var (vj, vi, vk) := (VectorOf(j), VectorOf(i), VectorOf(k));
    LanePairs();
    LanesOfVectors();
    VectorsBegin(j);
    VectorsBegin(i);
    VectorsBegin(k);
    IncludesEither(VectorMask(vj), VectorMask(vi));
    IncludesEither(PixelMask(vj), PixelMask(vi));
    if kind == 0x07 {
      ProductTruthful(MUL_SV_VECTOR, Shape(4, ByVector, false), false, Word(vi), vi, vj, vk, Or(VectorMask(vj), VectorMask(vi)), b3, f, m);
    } else if kind == 0x0B {
      ProductTruthful(MUL_P_VECTOR, Shape(3, ByVector, false), false, Word(vi), vi, vj, vk, Or(PixelMask(vj), PixelMask(vi)), b3, f, m);
    } else {
      ProductTruthful(DOTP_VECTOR, Shape(4, ByVector, false), true, Word(vj), vj, vi, k, Or(VectorMask(vj), VectorMask(vi)), b3, f, m);
    }
  }

  lemma ByIndexTruthful(kind: Byte, j: bv32, i: bv32, k: bv32, b3: Byte, f: Fields, m: Masks)
    requires (kind == 0x05 || kind == 0x06 || kind == 0x09 || kind == 0x0A) && j < 32 && i < 32 && k < 32
    ensures Truthful(Fits, Needs, f, m, Products(kind, j, i, k, b3))
  {
    hide Truthful, SmallShift, Includes, ScalarMask, VectorMask, PixelMask, Or, VectorOf, IsVector, Pair, Widen, RuAndControl, RvAndControl;
    var (vj, vi, vk) := (VectorOf(j), VectorOf(i), VectorOf(k));
    LanePairs();
    VectorsBegin(j);
    VectorsBegin(i);
    VectorsBegin(k);
    NothingIncluded(VectorMask(vj));
    NothingIncluded(PixelMask(vj));
    ControlWords();
    if kind == 0x05 {
      ProductTruthful(MUL_SV_RU, Shape(4, ByRu, false), false, Leave, 0, vj, vk, VectorMask(vj), b3, f, m);
    } else if kind == 0x06 {
      ProductTruthful(MUL_SV_RV, Shape(4, ByRv, false), false, Leave, 0, vj, vk, VectorMask(vj), b3, f, m);
    } else if kind == 0x09 {
      ProductTruthful(MUL_P_RU, Shape(3, ByRu, false), false, Leave, 0, vj, vk, PixelMask(vj), b3, f, m);
    } else {
      ProductTruthful(MUL_P_RV, Shape(3, ByRv, false), false, Leave, 0, vj, vk, PixelMask(vj), b3, f, m);
    }
  }

  lemma ProductsTruthful(kind: Byte, j: bv32, i: bv32, k: bv32, b3: Byte, f: Fields, m: Masks)
    requires 0x04 <= kind <= 0x0D && j < 32 && i < 32 && k < 32
    ensures Truthful(Fits, Needs, f, m, Products(kind, j, i, k, b3))
  {
    hide Truthful, Products;
    if kind == 0x04 || kind == 0x08 || kind == 0x0C {
      ByScalarTruthful(kind, j, i, k, b3, f, m);
    } else if kind == 0x07 || kind == 0x0B || kind == 0x0D {
      ByVectorTruthful(kind, j, i, k, b3, f, m);
    } else {
      ByIndexTruthful(kind, j, i, k, b3, f, m);
    }
  }

  lemma VectorsBegin(r: bv32)
    requires r < 32
    ensures IsVector(VectorOf(r)) && VectorOf(r) < 32
  {
  }

  lemma ControlWords()
    ensures RuAndControl() == Or(MASK_RU, MASK_UVCTL) && RvAndControl() == Or(MASK_RV, MASK_UVCTL)
  {
  }

  // ---- The decoders ----

  lemma RegisterFields(b0: Byte, b1: Byte, b2: Byte)
    ensures Upper(b0, b1) < 32 && Lower(b1) < 32 && KindOf(b2) <= 0x0F
  {
  }

  lemma SumHandlers()
    ensures IsSum(ADDM) && IsSum(SUBM)
  {
  }

  /** Of whatever bytes, but for the one kind that is no instruction, the words are those of the handler. */
  lemma Mul32Truthful(b0: Byte, b1: Byte, b2: Byte, b3: Byte, f: Fields, m: Masks)
    requires KindOf(b2) != 0x03
    ensures Truthful(Fits, Needs, f, m, Mul32(b0, b1, b2, b3))
  {
    hide Truthful, Upper, Lower, KindOf, ScalarShifted, ShiftedByRegister, ImmediateProduct, Sums, Products, IsSum;
    RegisterFields(b0, b1, b2);
    RegisterFields(b0, b3, b2);
    var j, i, k := Upper(b0, b1), Lower(b1), Lower(b3);
    SumHandlers();
    ShiftedTruthful(i, j, k, b3, f, m);
    ByRegisterTruthful(i, j, k, b3, f, m);
    ImmediateTruthful(i, j, k, b3, f, m);
    SumsTruthful(ADDM, j, i, k, f, m);
    SumsTruthful(SUBM, j, i, k, f, m);
    if 0x04 <= KindOf(b2) <= 0x0D { ProductsTruthful(KindOf(b2), j, i, k, b3, f, m); }
  }

  lemma BySvshiftTruthful(i: bv32, j: bv32, k: bv32, f: Fields, m: Masks)
    requires i < 32 && j < 32 && k < 32
    ensures Truthful(Fits, Needs, f, m, VectorBySvshift(i, j, k))
  {
    hide Truthful, Effect, SmallShift, Includes, VectorMask, Or, VectorOf, IsVector, Pair, Widen;
    var (vj, vi, vk) := (VectorOf(j), VectorOf(i), VectorOf(k));
    LanePairs();
    VectorsBegin(j);
    VectorsBegin(i);
    VectorsBegin(k);
    IncludesEither(VectorMask(vj), VectorMask(vi));
    ProductTruthful(MUL_SV_VECTOR, Shape(4, ByVector, false), false, Word(vi), vi, vj, vk, Or(VectorMask(vj), VectorMask(vi)), 0, f, m);
    SvshiftIsSmallShift(vj, vi, vk);
  }

  lemma SvshiftIsSmallShift(vj: bv32, vi: bv32, vk: bv32)
    ensures SmallShift(MUL_SV_VECTOR, Word(vi), vj, vk, Or(VectorMask(vj), VectorMask(vi)), VectorMask(vk), 0, 0)
            == Effect(MUL_SV_VECTOR + 1, Leave, Word(vi), vj, vk, Or(VectorMask(vj), VectorMask(vi)), Replace(MASK_SVSHIFT), VectorMask(vk), Keep)
  {
    hide VectorMask, Or, Widen;
  }

  lemma Mul16Truthful(b0: Byte, b1: Byte, f: Fields, m: Masks)
    ensures Truthful(Fits, Needs, f, m, Mul16(b0, b1))
  {
    hide Truthful, Upper, Lower, VectorBySvshift, ScalarByAcshift;
    RegisterFields(b0, b1, 0);
    BySvshiftTruthful(Lower(b1), Upper(b0, b1), Upper(b0, b1), f, m);
    ByAcshiftTruthful(Lower(b1), Upper(b0, b1), Upper(b0, b1), f, m);
  }
}
