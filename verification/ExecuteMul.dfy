/** The multiplier's handlers, and what each of them reads and writes. */
module ExecuteMul {
  import opened Dependencies
  import opened Handlers
  import opened Conversions
  import opened Machine
  import opened Mixing
  import opened SignedWords
  import opened Words

  // ---- Arithmetic ----

  function Shl64(x: bv64, n: bv64): bv64 { if n < 64 then Left(x, Amount64(n)) else 0 }

  function Asr64(x: bv64, n: bv64): bv64 {
    if n >= 64 then 0 else if Negative64(x) then Not64(Right(Not64(x), Amount64(n))) else Right(x, Amount64(n))
  }

  /** A signed 32-bit shift to the right. */
  function Asr32(x: bv32, n: bv64): bv32 { Low32(Asr64(SignExtend(x), n)) }

  /** The integer part of a 16.16 number. */
  function Upper16(x: bv32): bv32 { Asr32(x, 16) }

  /** A shift taken from a register: seven bits with a sign, to the right if it is not negative. */
  function Shifted(x: bv64, amount: bv32): bv64 {
    var s := amount & 0x7F;
    if s & 0x40 != 0 then Shl64(x, Widen(128 - s)) else Asr64(x, Widen(s))
  }

  function Product64(x: bv32, y: bv32): bv64 { SignExtend(x) * SignExtend(y) }

  /** The product does not fit into 32 bits. */
  predicate Overflows(x: bv64) {
    if x & 0x80000000 == 0 then x & 0xFFFFFFFF00000000 != 0 else x & 0xFFFFFFFF00000000 != 0xFFFFFFFF00000000
  }

  function MulFlags(cc: bv32, result: bv64): bv32 {
    if Overflows(result) then SetBits(cc, MUL_OVERFLOW) else ClearBits(cc, MUL_OVERFLOW)
  }

  function ShiftTable(i: bv64): bv32 {
    if i == 0 then 16 else if i == 1 then 8 else if i == 2 then 0 else 2
  }

  function Scaled(x: bv32, y: bv32, shift: bv32): bv32 { ShiftedUp(Mul32(x, y), shift) }
  function ShiftedUp(x: bv32, shift: bv32): bv32 { if shift < 32 then x << (shift as bv6) else 0 }

  function MipBits(uvctl: bv32): bv32 { (uvctl >> 24) & 7 }
  function Low14(x: bv32): bv32 { x & 0x3FFF }

  /** The integer part of ru or rv, as a fraction of a texel. */
  function Texel(x: bv32, uvctl: bv32): bv32 { Low14(Asr32(x, Widen(Add32(2, MipBits(uvctl))))) }

  // ---- Sums and scalar products ----

  function Sum(h: bv64, x: bv32, y: bv32): bv32 { if h == ADDM then Add32(x, y) else Sub32(x, y) }

  predicate ImmediateTimes(h: bv64) {
    h == MUL_IMMEDIATE_ACSHIFT || h == MUL_IMMEDIATE_SCALAR || h == MUL_IMMEDIATE_RIGHT || h == MUL_IMMEDIATE_LEFT
  }

  function ScalarResult(f: Fields, p: Registers): bv64 {
    var x := if ImmediateTimes(f.handler) then Low32(f.f2) else Reg(p, Low32(f.f2));
    var result := Product64(x, Reg(p, Low32(f.f3)));
    if f.handler == MUL_SCALAR_ACSHIFT || f.handler == MUL_IMMEDIATE_ACSHIFT then Shifted(result, Reg(p, ACSHIFT))
    else if f.handler == MUL_SCALAR_SCALAR || f.handler == MUL_IMMEDIATE_SCALAR then Shifted(result, Reg(p, Low32(f.f1)))
    else if f.handler == MUL_SCALAR_RIGHT || f.handler == MUL_IMMEDIATE_RIGHT then Asr64(result, f.f1)
    else Shl64(result, f.f1)
  }

  function ScalarProduct(f: Fields, regs: Registers, p: Registers): Registers {
    var result := ScalarResult(f, p);
    SetReg(SetReg(regs, CC, MulFlags(Reg(regs, CC), result)), Low32(f.f4), Low32(result))
  }

  // ---- Products of vectors ----

  datatype Factor = ByScalar | ByRu | ByRv | ByVector

  /** How many lanes a handler works on, what it multiplies them by, and where the shift comes from. */
  datatype Shape = Shape(lanes: nat, factor: Factor, svshift: bool)

  function ShapeFrom(first: bv64, lanes: nat, h: bv64): Shape {
    Shape(lanes, if h < first + 2 then ByScalar else if h < first + 4 then ByRu else if h < first + 6 then ByRv else ByVector,
          (h - first) & 1 == 1)
  }

  /** The dot products have all four lanes but one result. */
  function ShapeOf(h: bv64): Shape {
    if h < MUL_P_SCALAR then ShapeFrom(MUL_SV_SCALAR, 4, h)
    else if h < DOTP_SCALAR then ShapeFrom(MUL_P_SCALAR, 3, h)
    else Shape(4, if h < DOTP_VECTOR then ByScalar else ByVector, (h - DOTP_SCALAR) & 1 == 1)
  }

  /** The register of a lane of a vector. */
  function At(r: bv32, lane: bv32): bv32 { r + lane }

  function FactorOf(factor: Factor, f: Fields, p: Registers, lane: bv32): bv32 {
    match factor
    case ByScalar => Upper16(Reg(p, Low32(f.f2)))
    case ByRu => Texel(Reg(p, RU), Reg(p, UVCTL))
    case ByRv => Texel(Reg(p, RV), Reg(p, UVCTL))
    case ByVector => Upper16(Reg(p, At(Low32(f.f2), lane)))
  }

  function LowTwo(x: bv32): bv32 { x & 3 }

  function ShiftOf(s: Shape, f: Fields, p: Registers): bv32 {
    ShiftTable(if s.svshift then Widen(LowTwo(Reg(p, SVSHIFT))) else f.f1)
  }

  function Lane(s: Shape, f: Fields, p: Registers, lane: bv32, shift: bv32): bv32 {
    Scaled(FactorOf(s.factor, f, p, lane), Upper16(Reg(p, At(Low32(f.f3), lane))), shift)
  }

  function Lanes(s: Shape, f: Fields, regs: Registers, p: Registers): Registers {
    var d, shift := Low32(f.f4), ShiftOf(s, f, p);
    var two := SetReg(SetReg(regs, At(d, 0), Lane(s, f, p, 0, shift)), At(d, 1), Lane(s, f, p, 1, shift));
    var three := SetReg(two, At(d, 2), Lane(s, f, p, 2, shift));
    if s.lanes == 3 then three else SetReg(three, At(d, 3), Lane(s, f, p, 3, shift))
  }

  lemma LanesApart(d: bv32, src: bv32)
    requires IsVector(d) && IsVector(src)
    ensures At(src, 1) != At(d, 0) && At(src, 2) != At(d, 0) && At(src, 3) != At(d, 0)
    ensures At(src, 2) != At(d, 1) && At(src, 3) != At(d, 1) && At(src, 3) != At(d, 2)
    ensures At(d, 0) < 32 && At(d, 1) < 32 && At(d, 2) < 32 && At(d, 3) < 32
  {
  }

  function LaneOf(p: Registers, factor: bv32, src: bv32, shift: bv32): bv32 { Scaled(factor, Upper16(Reg(p, src)), shift) }

  method OneInPlace(regs: array<bv32>, p: array<bv32>, r: bv32, factor: bv32, src: bv32, shift: bv32)
    requires regs.Length == 48 && p.Length == 48 && r < 48
    modifies regs
    ensures regs[..] == SetReg(old(regs[..]), r, LaneOf(old(p[..]), factor, src, shift))
    ensures p[..] == Live(p == regs, regs[..], old(p[..]))
  {
    hide Scaled, Upper16;
    regs[r as nat] := LaneOf(p[..], factor, src, shift);
  }

  /** What the operands read as once the registers have changed. */
  function Live(same: bool, regs: Registers, operands: Registers): Registers { if same then regs else operands }

  /** No lane is overwritten before it is read, as vectors begin at multiples of four. */
  lemma ReadsLive(same: bool, r0: Registers, operands: Registers, d: bv32, src: bv32, v0: bv32, v1: bv32, v2: bv32)
    requires IsVector(d) && IsVector(src) && (same ==> r0 == operands)
    ensures var r1 := SetReg(r0, At(d, 0), v0);
            var r2 := SetReg(r1, At(d, 1), v1);
            var r3 := SetReg(r2, At(d, 2), v2);
            && Reg(Live(same, r1, operands), At(src, 1)) == Reg(operands, At(src, 1))
            && Reg(Live(same, r2, operands), At(src, 2)) == Reg(operands, At(src, 2))
            && Reg(Live(same, r3, operands), At(src, 3)) == Reg(operands, At(src, 3))
  {
    hide Reg, SetReg, IsVector, At;
    LanesApart(d, src);
    var r1 := SetReg(r0, At(d, 0), v0);
    var r2 := SetReg(r1, At(d, 1), v1);
    RegAfterSet(r0, At(d, 0), v0, At(src, 1));
    RegAfterSet(r0, At(d, 0), v0, At(src, 2));
    RegAfterSet(r0, At(d, 0), v0, At(src, 3));
    RegAfterSet(r1, At(d, 1), v1, At(src, 2));
    RegAfterSet(r1, At(d, 1), v1, At(src, 3));
    RegAfterSet(r2, At(d, 2), v2, At(src, 3));
  }

  lemma LiveAgain(same: bool, r: Registers, q: Registers, operands: Registers)
    ensures Live(same, r, Live(same, q, operands)) == Live(same, r, operands)
  {
  }

  /** The handlers' way: lane by lane into the registers, which may be the very ones that are read. */
  method LanesInPlace(s: Shape, f: Fields, regs: array<bv32>, p: array<bv32>)
    requires regs.Length == 48 && p.Length == 48
    requires IsVector(Low32(f.f3)) && IsVector(Low32(f.f4)) && (s.lanes == 3 || s.lanes == 4)
    modifies regs
    ensures regs[..] == Lanes(s, f, old(regs[..]), old(p[..]))
  {
    hide IsVector, Low32, FactorOf, ShiftOf, Reg, SetReg, At, Live, Scaled, Upper16;
    var d, src, shift := Low32(f.f4), Low32(f.f3), ShiftOf(s, f, p[..]);
    LanesApart(d, src);
    ghost var same, operands := p == regs, p[..];
    var x0, x1, x2, x3 := FactorOf(s.factor, f, p[..], 0), FactorOf(s.factor, f, p[..], 1),
                          FactorOf(s.factor, f, p[..], 2), FactorOf(s.factor, f, p[..], 3);
    ReadsLive(same, regs[..], operands, d, src, Lane(s, f, operands, 0, shift), Lane(s, f, operands, 1, shift), Lane(s, f, operands, 2, shift));
    OneInPlace(regs, p, At(d, 0), x0, At(src, 0), shift);
    ghost var r1 := regs[..];
    OneInPlace(regs, p, At(d, 1), x1, At(src, 1), shift);
    ghost var r2 := regs[..];
    LiveAgain(same, r2, r1, operands);
    OneInPlace(regs, p, At(d, 2), x2, At(src, 2), shift);
    LiveAgain(same, regs[..], r2, operands);
    if s.lanes == 4 { OneInPlace(regs, p, At(d, 3), x3, At(src, 3), shift); }
  }

  function Sum4(a: bv32, b: bv32, c: bv32, d: bv32): bv32 { Add32(Add32(Add32(a, b), c), d) }

  function DotProduct(s: Shape, f: Fields, regs: Registers, p: Registers): Registers {
    SetReg(regs, Low32(f.f4),
           ShiftedUp(Sum4(Lane(s, f, p, 0, 0), Lane(s, f, p, 1, 0), Lane(s, f, p, 2, 0), Lane(s, f, p, 3, 0)), ShiftOf(s, f, p)))
  }

  // ---- The handlers ----

  predicate IsSum(h: bv64) { h == ADDM || h == SUBM }
  predicate IsScalar(h: bv64) { MUL_SCALAR_ACSHIFT <= h <= MUL_IMMEDIATE_LEFT }
  predicate IsLanes(h: bv64) { MUL_SV_SCALAR <= h <= MUL_SV_VECTOR + 1 || MUL_P_SCALAR <= h <= MUL_P_VECTOR + 1 }
  predicate IsDot(h: bv64) { DOTP_SCALAR <= h <= DOTP_VECTOR + 1 }

  lemma Families(h: bv64)
    ensures !(IsSum(h) && (IsScalar(h) || IsLanes(h) || IsDot(h)))
    ensures !(IsScalar(h) && (IsLanes(h) || IsDot(h))) && !(IsLanes(h) && IsDot(h))
    ensures ShiftByScalar(h) ==> IsScalar(h)
  {
  }

  function Registers'(f: Fields, regs: Registers, p: Registers): Registers {
    if IsSum(f.handler) then SetReg(regs, Low32(f.f4), Sum(f.handler, Reg(p, Low32(f.f2)), Reg(p, Low32(f.f3))))
    else if IsScalar(f.handler) then ScalarProduct(f, regs, p)
    else if IsLanes(f.handler) then Lanes(ShapeOf(f.handler), f, regs, p)
    else if IsDot(f.handler) then DotProduct(ShapeOf(f.handler), f, regs, p)
    else regs
  }

  function Execute(f: Fields, m: State, p: Registers): State {
    m.(regs := Registers'(f, m.regs, p))
  }

  // ---- What the handlers read and write ----

  function LaneMask(lanes: nat, r: bv32): bv32 { if lanes == 3 then PixelMask(r) else VectorMask(r) }

  function FactorMask(factor: Factor, lanes: nat, r: bv32): bv32 {
    match factor
    case ByScalar => ScalarMask(r)
    case ByVector => LaneMask(lanes, r)
    case _ => 0
  }

  function FactorMisc(factor: Factor): bv32 {
    if factor.ByRu? then Or(MASK_RU, MASK_UVCTL) else if factor.ByRv? then Or(MASK_RV, MASK_UVCTL) else 0
  }

  function ShiftMisc(s: Shape): bv32 { if s.svshift then MASK_SVSHIFT else 0 }

  predicate ShiftByScalar(h: bv64) { h == MUL_SCALAR_SCALAR || h == MUL_IMMEDIATE_SCALAR }
  predicate ShiftByAcshift(h: bv64) { h == MUL_SCALAR_ACSHIFT || h == MUL_IMMEDIATE_ACSHIFT }

  /** The dependency words that a handler with these operands calls for. */
  function Needs(f: Fields): Masks {
    var h, s1, s2, d := f.handler, Low32(f.f2), Low32(f.f3), Low32(f.f4);
    if IsSum(h) then Masks(Or(ScalarMask(s1), ScalarMask(s2)), 0, ScalarMask(d), 0)
    else if IsScalar(h) then
      Masks(Or(ScalarMask(s2), Or(if ImmediateTimes(h) then 0 else ScalarMask(s1), if ShiftByScalar(h) then ScalarMask(Low32(f.f1)) else 0)),
            if ShiftByAcshift(h) then MASK_ACSHIFT else 0, ScalarMask(d), FLAG_MV)
    else if IsLanes(h) || IsDot(h) then
      var s := ShapeOf(h);
      Masks(Or(LaneMask(s.lanes, s2), FactorMask(s.factor, s.lanes, s1)), Or(FactorMisc(s.factor), ShiftMisc(s)),
            if IsDot(h) then ScalarMask(d) else LaneMask(s.lanes, d), 0)
    else Masks(0, 0, 0, 0)
  }

  predicate IsVector(r: bv32) { r < 32 && r & 3 == 0 }

  predicate FactorFits(factor: Factor, r: bv32) {
    (factor.ByScalar? ==> r < 32) && (factor.ByVector? ==> IsVector(r))
  }

  /** The handler is one of the unit's, operands name registers that exist, and vectors begin at a multiple of four. */
  predicate Fits(f: Fields) {
    var h, s1, s2, d := f.handler, Low32(f.f2), Low32(f.f3), Low32(f.f4);
    && (IsSum(h) || IsScalar(h) || IsLanes(h) || IsDot(h))
    && s2 < 32 && d < 32 && (IsSum(h) || IsScalar(h) ==> s1 < 32) && (ShiftByScalar(h) ==> Low32(f.f1) < 32)
    && (IsLanes(h) || IsDot(h) ==> IsVector(s2) && FactorFits(ShapeOf(h).factor, s1))
    && (IsLanes(h) ==> IsVector(d))
  }

  lemma LanesHave(lanes: nat, r: bv32)
    requires IsVector(r)
    ensures var m := LaneMask(lanes, r); Has(m, At(r, 0)) && Has(m, At(r, 1)) && Has(m, At(r, 2)) && (lanes != 3 ==> Has(m, At(r, 3)))
  {
    hide Has, PixelMask, VectorMask;
    HasPixel(r);
    HasVector(r);
  }

  lemma VectorEnds(r: bv32)
    requires IsVector(r)
    ensures r < 32 && At(r, 1) < 32 && At(r, 2) < 32 && At(r, 3) < 32 && At(r, 0) == r
  {
  }

  lemma LanesAgree(masks: Masks, p: Registers, q: Registers, lanes: nat, r: bv32)
    requires Agree(p, q, masks) && Includes(masks.scalarIn, LaneMask(lanes, r)) && IsVector(r)
    ensures Reg(p, At(r, 0)) == Reg(q, At(r, 0)) && Reg(p, At(r, 1)) == Reg(q, At(r, 1)) && Reg(p, At(r, 2)) == Reg(q, At(r, 2))
    ensures lanes != 3 ==> Reg(p, At(r, 3)) == Reg(q, At(r, 3))
  {
    hide Agree, Includes, LaneMask, Has, Reg, IsVector, At;
    LanesHave(lanes, r);
    VectorEnds(r);
    var m := LaneMask(lanes, r);
    IncludedAgrees(masks, p, q, m, At(r, 0));
    IncludedAgrees(masks, p, q, m, At(r, 1));
    IncludedAgrees(masks, p, q, m, At(r, 2));
    if lanes != 3 { IncludedAgrees(masks, p, q, m, At(r, 3)); }
  }

  lemma MiscBits()
    ensures Has(MASK_ACSHIFT, ACSHIFT - 33) && Has(MASK_SVSHIFT, SVSHIFT - 33)
    ensures Has(MASK_RU, RU - 33) && Has(MASK_RV, RV - 33) && Has(MASK_UVCTL, UVCTL - 33)
  {
  }

  lemma SumReads(f: Fields, masks: Masks, regs: Registers, p: Registers, q: Registers)
    requires Agree(p, q, masks) && Fits(f) && AllInclude(masks, Needs(f)) && IsSum(f.handler)
    ensures Registers'(f, regs, p) == Registers'(f, regs, q)
  {
    hide Agree, Includes, Has, Reg, SetReg, Sum, ScalarMask, Or, Low32;
    IncludesParts(masks.scalarIn, ScalarMask(Low32(f.f2)), ScalarMask(Low32(f.f3)));
    ScalarAgrees(masks, p, q, Low32(f.f2));
    ScalarAgrees(masks, p, q, Low32(f.f3));
  }

  lemma ScalarReads(f: Fields, masks: Masks, regs: Registers, p: Registers, q: Registers)
    requires Agree(p, q, masks) && Fits(f) && AllInclude(masks, Needs(f)) && IsScalar(f.handler)
    ensures Registers'(f, regs, p) == Registers'(f, regs, q)
  {
    hide Agree, Includes, Has, Reg, SetReg, ScalarMask, Or, Low32, Product64, Shifted, Asr64, Shl64, MulFlags;
    var h := f.handler;
    var first := if ImmediateTimes(h) then 0 else ScalarMask(Low32(f.f2));
    var shift := if ShiftByScalar(h) then ScalarMask(Low32(f.f1)) else 0;
    IncludesParts(masks.scalarIn, ScalarMask(Low32(f.f3)), Or(first, shift));
    IncludesParts(masks.scalarIn, first, shift);
    ScalarAgrees(masks, p, q, Low32(f.f3));
    if !ImmediateTimes(h) { ScalarAgrees(masks, p, q, Low32(f.f2)); }
    if ShiftByScalar(h) { ScalarAgrees(masks, p, q, Low32(f.f1)); }
    MiscBits();
    if ShiftByAcshift(h) { MiscAgrees(masks, p, q, MASK_ACSHIFT, ACSHIFT); }
  }

  lemma FactorReads(s: Shape, f: Fields, masks: Masks, p: Registers, q: Registers, lane: bv32)
    requires Agree(p, q, masks) && lane <= 3 && (s.lanes == 3 ==> lane < 3)
    requires Includes(masks.scalarIn, FactorMask(s.factor, s.lanes, Low32(f.f2))) && Includes(masks.miscIn, FactorMisc(s.factor))
    requires FactorFits(s.factor, Low32(f.f2))
    ensures FactorOf(s.factor, f, p, lane) == FactorOf(s.factor, f, q, lane)
  {
    hide Agree, Includes, Has, Reg, ScalarMask, LaneMask, Or, Low32, Upper16, Texel, IsVector, At;
    var r := Low32(f.f2);
    MiscBits();
    match s.factor
    case ByScalar => ScalarAgrees(masks, p, q, r);
    case ByVector =>
      LanesAgree(masks, p, q, s.lanes, r);
      VectorEnds(r);
      LaneNumbers(lane);
    case ByRu => TexelReads(masks, p, q, MASK_RU, RU);
    case ByRv => TexelReads(masks, p, q, MASK_RV, RV);
  }

  lemma LaneNumbers(lane: bv32)
    requires lane <= 3
    ensures lane == 0 || lane == 1 || lane == 2 || lane == 3
  {
  }

  lemma TexelReads(masks: Masks, p: Registers, q: Registers, part: bv32, r: bv32)
    requires Agree(p, q, masks) && Includes(masks.miscIn, Or(part, MASK_UVCTL)) && 33 <= r < 48 && Has(part, r - 33)
    ensures Reg(p, r) == Reg(q, r) && Reg(p, UVCTL) == Reg(q, UVCTL)
  {
    hide Agree, Includes, Has, Reg, Or;
    IncludesParts(masks.miscIn, part, MASK_UVCTL);
    MiscBits();
    MiscAgrees(masks, p, q, part, r);
    MiscAgrees(masks, p, q, MASK_UVCTL, UVCTL);
  }

  lemma ShiftReads(s: Shape, f: Fields, masks: Masks, p: Registers, q: Registers)
    requires Agree(p, q, masks) && Includes(masks.miscIn, ShiftMisc(s))
    ensures ShiftOf(s, f, p) == ShiftOf(s, f, q)
  {
    hide Agree, Includes, Has, Reg, ShiftTable, Widen;
    MiscBits();
    if s.svshift { MiscAgrees(masks, p, q, MASK_SVSHIFT, SVSHIFT); }
  }

  lemma LaneReads(s: Shape, f: Fields, masks: Masks, p: Registers, q: Registers, lane: bv32, shift: bv32)
    requires Agree(p, q, masks) && lane <= 3 && (s.lanes == 3 ==> lane < 3)
    requires Includes(masks.scalarIn, LaneMask(s.lanes, Low32(f.f3))) && IsVector(Low32(f.f3))
    requires Includes(masks.scalarIn, FactorMask(s.factor, s.lanes, Low32(f.f2))) && Includes(masks.miscIn, FactorMisc(s.factor))
    requires FactorFits(s.factor, Low32(f.f2))
    ensures Lane(s, f, p, lane, shift) == Lane(s, f, q, lane, shift)
  {
    hide Agree, Includes, Has, Reg, FactorOf, FactorMask, FactorMisc, LaneMask, Low32, Upper16, Scaled, IsVector, At;
    FactorReads(s, f, masks, p, q, lane);
    LanesAgree(masks, p, q, s.lanes, Low32(f.f3));
    VectorEnds(Low32(f.f3));
    LaneNumbers(lane);
  }

  lemma ShapeReads(f: Fields, masks: Masks, regs: Registers, p: Registers, q: Registers)
    requires Agree(p, q, masks) && Fits(f) && AllInclude(masks, Needs(f)) && (IsLanes(f.handler) || IsDot(f.handler))
    ensures Registers'(f, regs, p) == Registers'(f, regs, q)
  {
    hide Agree, Includes, Has, Reg, SetReg, FactorMask, FactorMisc, LaneMask, Low32, Lane, ShiftOf, ShiftMisc, ShapeOf, IsVector, Or, Sum4,
         ShiftedUp, IsSum, IsScalar, IsLanes, IsDot;
    var s := ShapeOf(f.handler);
    Families(f.handler);
    IncludesParts(masks.scalarIn, LaneMask(s.lanes, Low32(f.f3)), FactorMask(s.factor, s.lanes, Low32(f.f2)));
    IncludesParts(masks.miscIn, FactorMisc(s.factor), ShiftMisc(s));
    ShiftReads(s, f, masks, p, q);
    var shift := if IsDot(f.handler) then 0 else ShiftOf(s, f, p);
    LaneReads(s, f, masks, p, q, 0, shift);
    LaneReads(s, f, masks, p, q, 1, shift);
    LaneReads(s, f, masks, p, q, 2, shift);
    DotHasFour(f.handler);
    if s.lanes != 3 { LaneReads(s, f, masks, p, q, 3, shift); }
  }

  lemma DotHasFour(h: bv64)
    ensures IsDot(h) ==> ShapeOf(h).lanes == 4
  {
  }

  // ---- What they leave alone ----

  lemma OverflowFlag(cc: bv32, result: bv64, miscOut: bv32)
    requires Includes(miscOut, FLAG_MV)
    ensures KeepsFlags(cc, MulFlags(cc, result), miscOut)
  {
    hide Overflows, ChangesOnly, FlagPart, Includes, SetBits, ClearBits;
    OneFlag(cc);
    FlagsDeclared(cc, MulFlags(cc, result), FLAG_MV, miscOut);
  }

  lemma OneFlag(cc: bv32)
    ensures ChangesOnly(cc, SetBits(cc, MUL_OVERFLOW), FlagPart(FLAG_MV)) && ChangesOnly(cc, ClearBits(cc, MUL_OVERFLOW), FlagPart(FLAG_MV))
  {
  }

  lemma ResultWritten(masks: Masks, p: Registers, r: bv32, v: bv32)
    requires Includes(masks.scalarOut, ScalarMask(r)) && r < 32
    ensures KeepsOthers(p, SetReg(p, r, v), masks) && Reg(SetReg(p, r, v), CC) == Reg(p, CC)
  {
    hide Includes, Has, Reg, SetReg, ScalarMask, KeepsOthers;
    HasScalar(r);
    ScalarWritten(masks, p, ScalarMask(r), r, v);
  }

  lemma ScalarWrites(f: Fields, masks: Masks, regs: Registers, p: Registers)
    requires Fits(f) && AllInclude(masks, Needs(f)) && IsScalar(f.handler)
    ensures KeepsOthers(regs, Registers'(f, regs, p), masks)
    ensures KeepsFlags(Reg(regs, CC), Reg(Registers'(f, regs, p), CC), masks.miscOut)
  {
    hide Includes, Has, Reg, SetReg, ScalarMask, KeepsOthers, KeepsFlags, MulFlags, ScalarResult, Low32, Or;
    var result := ScalarResult(f, p);
    var flags := MulFlags(Reg(regs, CC), result);
    var q := SetReg(regs, CC, flags);
    FlagsWritten(masks, regs, flags);
    OverflowFlag(Reg(regs, CC), result, masks.miscOut);
    ResultWritten(masks, q, Low32(f.f4), Low32(result));
    KeepsThrough(masks, regs, q, SetReg(q, Low32(f.f4), Low32(result)));
  }

  lemma LanesWrites(s: Shape, f: Fields, masks: Masks, regs: Registers, p: Registers)
    requires Includes(masks.scalarOut, LaneMask(s.lanes, Low32(f.f4))) && IsVector(Low32(f.f4))
    ensures KeepsOthers(regs, Lanes(s, f, regs, p), masks) && Reg(Lanes(s, f, regs, p), CC) == Reg(regs, CC)
  {
    hide Includes, Has, Reg, SetReg, KeepsOthers, LaneMask, Low32, Lane, ShiftOf, IsVector, At;
    var d, shift := Low32(f.f4), ShiftOf(s, f, p);
    var part := LaneMask(s.lanes, d);
    LanesHave(s.lanes, d);
    VectorEnds(d);
    var (v0, v1, v2, v3) := (Lane(s, f, p, 0, shift), Lane(s, f, p, 1, shift), Lane(s, f, p, 2, shift), Lane(s, f, p, 3, shift));
    var one := SetReg(regs, At(d, 0), v0);
    var two := SetReg(one, At(d, 1), v1);
    var three := SetReg(two, At(d, 2), v2);
    ScalarWritten(masks, regs, part, At(d, 0), v0);
    ScalarWritten(masks, one, part, At(d, 1), v1);
    ScalarWritten(masks, two, part, At(d, 2), v2);
    KeepsThrough(masks, regs, one, two);
    KeepsThrough(masks, regs, two, three);
    if s.lanes != 3 {
      ScalarWritten(masks, three, part, At(d, 3), v3);
      KeepsThrough(masks, regs, three, SetReg(three, At(d, 3), v3));
    }
  }

  lemma Writes(f: Fields, masks: Masks, regs: Registers, p: Registers)
    requires Fits(f) && AllInclude(masks, Needs(f))
    ensures KeepsOthers(regs, Registers'(f, regs, p), masks)
    ensures KeepsFlags(Reg(regs, CC), Reg(Registers'(f, regs, p), CC), masks.miscOut)
  {
    hide Includes, Has, Reg, SetReg, ScalarMask, LaneMask, KeepsOthers, KeepsFlags, Lane, Lanes, ScalarProduct, Low32, Or, Sum, Sum4,
         ShapeOf, ShiftOf, ShiftedUp, IsVector, IsSum, IsScalar, IsLanes, IsDot, ImmediateTimes, ShiftByScalar, ShiftByAcshift;
    Families(f.handler);
    SameFlags(Reg(regs, CC), masks.miscOut);
    var h := f.handler;
    if IsScalar(h) {
      ScalarWrites(f, masks, regs, p);
    } else if IsSum(h) {
      ResultWritten(masks, regs, Low32(f.f4), Sum(h, Reg(p, Low32(f.f2)), Reg(p, Low32(f.f3))));
    } else if IsLanes(h) {
      LanesWrites(ShapeOf(h), f, masks, regs, p);
    } else if IsDot(h) {
      var s := ShapeOf(h);
      ResultWritten(masks, regs, Low32(f.f4),
                    ShiftedUp(Sum4(Lane(s, f, p, 0, 0), Lane(s, f, p, 1, 0), Lane(s, f, p, 2, 0), Lane(s, f, p, 3, 0)), ShiftOf(s, f, p)));
    } else {
      NothingWritten(masks, regs);
    }
  }

  function Bound(f: Fields): Handler { (m: State, p: Registers, cc: bv32) => Execute(f, m, p) }

  /** Words that include what a handler needs are true of it. */
  lemma HandlerSound(f: Fields, masks: Masks)
    requires Fits(f) && AllInclude(masks, Needs(f))
    ensures Sound(Instruction(Bound(f), masks))
  {
    hide Agree, Includes, KeepsOthers, KeepsFlags, Registers', Needs, Fits, IsSum, IsScalar, IsLanes, IsDot, AllInclude, Reg;
    forall m: State, p: Registers, q: Registers | Agree(p, q, masks) ensures Execute(f, m, p) == Execute(f, m, q) {
      Reads(f, masks, m.regs, p, q);
    }
    forall m: State, p: Registers
      ensures KeepsOthers(m.regs, Execute(f, m, p).regs, masks)
      ensures KeepsFlags(Reg(m.regs, CC), Reg(Execute(f, m, p).regs, CC), masks.miscOut)
    {
      Writes(f, masks, m.regs, p);
    }
  }

  lemma Reads(f: Fields, masks: Masks, regs: Registers, p: Registers, q: Registers)
    requires Agree(p, q, masks) && Fits(f) && AllInclude(masks, Needs(f))
    ensures Registers'(f, regs, p) == Registers'(f, regs, q)
  {
    hide Agree, Needs, Fits, AllInclude, Reg, SetReg;
    if IsSum(f.handler) {
      SumReads(f, masks, regs, p, q);
    } else if IsScalar(f.handler) {
      ScalarReads(f, masks, regs, p, q);
    } else if IsLanes(f.handler) || IsDot(f.handler) {
      ShapeReads(f, masks, regs, p, q);
    }
  }
}
