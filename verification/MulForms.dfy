/** Every 32-bit multiplier instruction: an encoder, and what running the decoded bytes does, in signed numbers. */
module MulForms {
  import opened Conversions
  import opened DecodeMul
  import opened Dependencies
  import opened ExecuteMul
  import opened Handlers
  import opened InstructionEntry
  import opened LaneArithmetic
  import opened Machine
  import opened MulArithmetic
  import opened OperandForms
  import opened SignedWords
  import opened Words
  import Mixing
  import P = Products

  // ---- Instructions ----

  /** The first factor of a scalar product: a register or an unsigned number of five bits. */
  datatype Multiplicand = InRegister(r: bv32) | Immediate(n: bv32)

  /** How far a scalar product is shifted, to the right if the amount is not negative. */
  datatype Amount = ByAcshift | ByRegister(q: bv32) | ByBits(m: bv32)

  /** How far a product of vectors is shifted. */
  datatype Scaling = BySvshift | ByTable(m: bv32)

  datatype Multiplication =
    | Mul(first: Multiplicand, second: bv32, amount: Amount, dest: bv32)
    | Vector(lanes: nat, factor: Factor, r: bv32, vector: bv32, scaling: Scaling, dest: bv32)
    | Dotp(factor: Factor, r: bv32, vector: bv32, scaling: Scaling, dest: bv32)
    | Addm(x: bv32, y: bv32, dest: bv32)
    | Subm(x: bv32, y: bv32, dest: bv32)

  /** Scalar products by anything but acshift have their second operand as destination. */
  predicate Encodable(op: Multiplication) {
    match op
    case Mul(first, second, amount, dest) =>
      && second < 32 && dest < 32
      && (if first.InRegister? then first.r < 32 else first.n < 32)
      && (amount.ByRegister? ==> amount.q < 32 && dest == second)
      && (amount.ByBits? ==> FitsBits(amount.m) && dest == second)
    case Vector(lanes, factor, r, vector, scaling, dest) =>
      (lanes == 3 || lanes == 4) && IsVector(vector) && IsVector(dest) && FactorFits(factor, r) && ScalingFits(scaling)
    case Dotp(factor, r, vector, scaling, dest) =>
      (factor.ByScalar? || factor.ByVector?) && IsVector(vector) && dest < 32 && FactorFits(factor, r) && ScalingFits(scaling)
    case Addm(x, y, dest) => x < 32 && y < 32 && dest < 32
    case Subm(x, y, dest) => x < 32 && y < 32 && dest < 32
  }

  predicate ScalingFits(s: Scaling) { s.ByTable? ==> s.m < 4 }

  // ---- What they mean ----

  function MultiplicandNumber(first: Multiplicand, p: Registers): int {
    match first
    case InRegister(r) => Signed(Reg(p, r))
    case Immediate(n) => Num32(n)
  }

  function AmountNumber(amount: Amount, p: Registers): int {
    match amount
    case ByAcshift => SevenSigned(Num32(Reg(p, ACSHIFT)))
    case ByRegister(q) => SevenSigned(Num32(Reg(p, q)))
    case ByBits(m) => Signed(m)
  }

  function ScaleNumber(s: Scaling, p: Registers): int {
    match s
    case BySvshift => Scale(Num32(Reg(p, SVSHIFT)) % 4)
    case ByTable(m) => Scale(Num32(m))
  }

  function Meaning(op: Multiplication, regs: Registers, p: Registers): Registers {
    match op
    case Mul(first, second, amount, dest) =>
      Multiplied(regs, dest, Shift(MultiplicandNumber(first, p) * Signed(Reg(p, second)), AmountNumber(amount, p)))
    case Vector(lanes, factor, r, vector, scaling, dest) => Vectored(lanes, factor, r, vector, ScaleNumber(scaling, p), dest, regs, p)
    case Dotp(factor, r, vector, scaling, dest) => Dotted(factor, r, vector, ScaleNumber(scaling, p), dest, regs, p)
    case Addm(x, y, dest) => SetReg(regs, dest, ToWord(Signed(Reg(p, x)) + Signed(Reg(p, y))))
    case Subm(x, y, dest) => SetReg(regs, dest, ToWord(Signed(Reg(p, x)) - Signed(Reg(p, y))))
  }

  // ---- The encoder ----

  /** The upper and the lower register field. */
  function UpperField(op: Multiplication): bv32 {
    match op
    case Mul(_, second, _, _) => second
    case Vector(_, factor, r, vector, _, _) => if factor.ByScalar? then r else vector
    case Dotp(_, r, _, _, _) => r
    case Addm(x, _, _) => x
    case Subm(x, _, _) => x
  }

  function LowerField(op: Multiplication): bv32 {
    match op
    case Mul(first, _, _, _) => if first.InRegister? then first.r else first.n
    case Vector(_, factor, r, vector, _, _) => if factor.ByVector? then r else if factor.ByScalar? then vector else 0
    case Dotp(_, _, vector, _, _) => vector
    case Addm(_, y, _) => y
    case Subm(_, y, _) => y
  }

  function FactorKind(factor: Factor): Byte {
    match factor
    case ByScalar => 0
    case ByRu => 1
    case ByRv => 2
    case ByVector => 3
  }

  function Kind(op: Multiplication): Byte {
    match op
    case Mul(first, _, amount, _) =>
      if first.InRegister? then (if amount.ByRegister? then 0x01 else 0x00) else (if amount.ByAcshift? then 0x01 else 0x02)
    case Vector(lanes, factor, _, _, _, _) => (if lanes == 3 then 0x08 else 0x04) + FactorKind(factor)
    case Dotp(factor, _, _, _, _) => if factor.ByScalar? then 0x0C else 0x0D
    case Addm(_, _, _) => 0x0E
    case Subm(_, _, _) => 0x0F
  }

  function ShiftByte(m: bv32): Byte { 0x80 | Narrow(m & 0x7F) }
  function PlainShiftByte(m: bv32): Byte { Narrow(m & 0x7F) }
  function MarkedByte(k: bv32): Byte { 0x80 | Narrow(k) }
  function TableByte(m: bv32, k: bv32): Byte { 0x80 | Narrow((m << 5) | k) }

  function ScalingByte(s: Scaling, k: bv32): Byte {
    if s.ByTable? then TableByte(s.m, k) else Narrow(k)
  }

  function LastByte(op: Multiplication): Byte {
    match op
    case Mul(first, _, ByAcshift, dest) => if first.InRegister? then Narrow(dest) else MarkedByte(dest)
    case Mul(first, _, ByRegister(q), _) => if first.InRegister? then Narrow(q) else MarkedByte(q)
    case Mul(first, _, ByBits(m), _) => if first.InRegister? then ShiftByte(m) else PlainShiftByte(m)
    case Vector(_, _, _, _, scaling, dest) => ScalingByte(scaling, dest)
    case Dotp(_, _, _, scaling, dest) => ScalingByte(scaling, dest)
    case Addm(_, _, dest) => Narrow(dest)
    case Subm(_, _, dest) => Narrow(dest)
  }

  /** What the encoded instruction decodes to. */
  function Decoded(op: Multiplication): Effects {
    Mul32(First(0x9C, UpperField(op)), Second(UpperField(op), LowerField(op)), Kind(op), LastByte(op))
  }

  function Run(e: Effects, f: Fields, m: State, p: Registers): State {
    ExecuteMul.Execute(FieldsAfter(f, e), m, p)
  }

  // ---- The fields come back ----

  lemma PlainByte(k: bv32)
    requires k < 32
    ensures Lower(Narrow(k)) == k && !Marked(Narrow(k))
  {
  }

  lemma MarkedBack(k: bv32)
    requires k < 32
    ensures Lower(MarkedByte(k)) == k && Marked(MarkedByte(k))
  {
  }

  lemma TableBack(m: bv32, k: bv32)
    requires m < 4 && k < 32
    ensures Lower(TableByte(m, k)) == k && Marked(TableByte(m, k)) && TwoBits(TableByte(m, k)) == m
  {
  }

  predicate FitsBits(m: bv32) { m + 64 < 128 }
  predicate ToTheRight(m: bv32) { m & 0x80000000 == 0 }
  function Negation(m: bv32): bv32 { Mixing.Sub32(0, m) }

  lemma ShiftByteBack(m: bv32)
    requires FitsBits(m)
    ensures Marked(ShiftByte(m)) && !Marked(PlainShiftByte(m))
    ensures ShiftsRight(ShiftByte(m)) == ShiftsRight(PlainShiftByte(m)) == ToTheRight(m)
    ensures ShiftSize(ShiftByte(m)) == ShiftSize(PlainShiftByte(m)) == if ToTheRight(m) then m else Negation(m)
  {
  }

  lemma KindsBack()
    ensures KindOf(0x00) == 0x00 && KindOf(0x01) == 0x01 && KindOf(0x02) == 0x02 && KindOf(0x04) == 0x04 && KindOf(0x05) == 0x05
    ensures KindOf(0x06) == 0x06 && KindOf(0x07) == 0x07 && KindOf(0x08) == 0x08 && KindOf(0x09) == 0x09 && KindOf(0x0A) == 0x0A
    ensures KindOf(0x0B) == 0x0B && KindOf(0x0C) == 0x0C && KindOf(0x0D) == 0x0D && KindOf(0x0E) == 0x0E && KindOf(0x0F) == 0x0F
  {
  }

  // ---- Sums ----

  lemma SumsRun(h: bv64, x: bv32, y: bv32, d: bv32, f: Fields, m: State, p: Registers)
    requires IsSum(h)
    ensures Run(Sums(h, x, y, d), f, m, p)
            == m.(regs := SetReg(m.regs, d, ToWord(if h == ADDM then Signed(Reg(p, x)) + Signed(Reg(p, y))
                                                 else Signed(Reg(p, x)) - Signed(Reg(p, y)))))
  {
    hide Signed, ToWord, Reg, SetReg, Low32, Widen, ExecuteMul.Sum, ScalarMask, Or, Pick, Updated;
    Settings();
    LowOfWidened(x);
    LowOfWidened(y);
    LowOfWidened(d);
    SumComputes(h, Reg(p, x), Reg(p, y));
  }

  lemma SumsDecode(x: bv32, y: bv32, dest: bv32)
    requires x < 32 && y < 32 && dest < 32
    ensures Decoded(Addm(x, y, dest)) == Sums(ADDM, x, y, dest) && Decoded(Subm(x, y, dest)) == Sums(SUBM, x, y, dest)
  {
    hide First, Second, Upper, Lower, KindOf, Narrow, Sums;
    RegistersBack(0x9C, x, y);
    PlainByte(dest);
    KindsBack();
  }

  // ---- Scalar products ----

  lemma SignedAmount(m: bv32)
    requires FitsBits(m)
    ensures ToTheRight(m) ==> Widen(m) < 64 && P.Num(Widen(m)) == Signed(m)
    ensures !ToTheRight(m) ==> Widen(Negation(m)) <= 64 && -(P.Num(Widen(Negation(m))) as int) == Signed(m)
  {
    hide P.Num, Num32, Widen, Negation;
    SmallWidths(m);
    NumOfWidened(m);
    NumOfWidened(Negation(m));
    if !ToTheRight(m) { NegatedNum(m); }
  }

  lemma SmallWidths(m: bv32)
    requires FitsBits(m)
    ensures ToTheRight(m) ==> Widen(m) < 64
    ensures !ToTheRight(m) ==> Widen(Negation(m)) <= 64 && m != 0
  {
  }

  lemma NegatedNum(m: bv32)
    requires m != 0
    ensures Num32(Negation(m)) == TWO_32 - Num32(m)
  {
    hide P.Num, Num32, Mixing.Add32, Mixing.Sub32;
    Mixing.AddUndone32(0, m);
    AddNum32(Negation(m), m);
    NumOfWidened(m);
    NumOfWidened(Negation(m));
    ZeroNum(m);
  }

  lemma ZeroNum(m: bv32)
    ensures Num32(0) == 0 && (m != 0 ==> Num32(m) > 0)
  {
    ToWordKnown(m);
  }

  /** Any scalar product, its shift amount from wherever its handler takes it. */
  lemma ScalarRun(h: bv64, info: Field, i: bv32, j: bv32, d: bv32, scalarIn: bv32, miscIn: Update, f: Fields, m: State, p: Registers)
    requires IsScalar(h) && AmountFits(FieldsAfter(f, Effect(h, info, Word(i), j, d, scalarIn, miscIn, ScalarMask(d), Replace(FLAG_MV))))
    ensures var e := Effect(h, info, Word(i), j, d, scalarIn, miscIn, ScalarMask(d), Replace(FLAG_MV));
            var x := Signed(if ImmediateTimes(h) then i else Reg(p, i));
            Run(e, f, m, p) == m.(regs := Multiplied(m.regs, d, Shift(x * Signed(Reg(p, j)), AmountOf(FieldsAfter(f, e), p))))
  {
    hide Signed, Reg, Low32, Widen, ScalarMask, Pick, Updated, Multiplied, Shift, AmountOf, AmountFits, ScalarProduct, IsSum, IsScalar,
         ImmediateTimes;
    Settings();
    Families(h);
    LowOfWidened(i);
    LowOfWidened(j);
    LowOfWidened(d);
    ScalarComputes(FieldsAfter(f, Effect(h, info, Word(i), j, d, scalarIn, miscIn, ScalarMask(d), Replace(FLAG_MV))), m.regs, p);
  }

  predicate ByAmount(h: bv64) { h == MUL_SCALAR_RIGHT || h == MUL_IMMEDIATE_RIGHT || h == MUL_SCALAR_LEFT || h == MUL_IMMEDIATE_LEFT }

  /** Shifts by acshift or a register. */
  lemma RegisterRun(h: bv64, info: Field, q: bv32, i: bv32, j: bv32, d: bv32, scalarIn: bv32, miscIn: Update, f: Fields, m: State, p: Registers)
    requires IsScalar(h) && !ByAmount(h) && (ShiftByScalar(h) ==> info == Word(q))
    ensures var x := Signed(if ImmediateTimes(h) then i else Reg(p, i));
            var a := SevenSigned(Num32(Reg(p, if ShiftByScalar(h) then q else ACSHIFT)));
            Run(Effect(h, info, Word(i), j, d, scalarIn, miscIn, ScalarMask(d), Replace(FLAG_MV)), f, m, p)
            == m.(regs := Multiplied(m.regs, d, Shift(x * Signed(Reg(p, j)), a)))
  {
    hide Run, Signed, Num32, Reg, Low32, Widen, ScalarMask, Pick, Updated, Multiplied, Shift, SevenSigned;
    Settings();
    LowOfWidened(q);
    ScalarRun(h, info, i, j, d, scalarIn, miscIn, f, m, p);
  }

  /** The two handlers that shift by the bits of the instruction. */
  predicate Handlers2(right: bv64, left: bv64) {
    (right == MUL_SCALAR_RIGHT && left == MUL_SCALAR_LEFT) || (right == MUL_IMMEDIATE_RIGHT && left == MUL_IMMEDIATE_LEFT)
  }

  lemma BitsAmount(right: bv64, left: bv64, amount: bv32, g: Fields, p: Registers)
    requires Handlers2(right, left) && FitsBits(amount)
    requires g.handler == (if ToTheRight(amount) then right else left) && g.f1 == Widen(if ToTheRight(amount) then amount else Negation(amount))
    ensures AmountFits(g) && AmountOf(g, p) == Signed(amount)
  {
    hide P.Num, Num32, Signed, Reg, Low32, Widen, ToTheRight, Negation, FitsBits;
    SignedAmount(amount);
  }

  /** Shifts by the bits of the instruction. */
  lemma BitsRun(right: bv64, left: bv64, amount: bv32, b3: Byte, i: bv32, j: bv32, d: bv32, scalarIn: bv32, miscIn: Update, f: Fields, m: State,
                p: Registers)
    requires Handlers2(right, left) && FitsBits(amount) && (b3 == ShiftByte(amount) || b3 == PlainShiftByte(amount))
    ensures var x := Signed(if right == MUL_IMMEDIATE_RIGHT then i else Reg(p, i));
            Run(Effect(Directed(b3, right, left), Word(ShiftSize(b3)), Word(i), j, d, scalarIn, miscIn, ScalarMask(d), Replace(FLAG_MV)), f, m, p)
            == m.(regs := Multiplied(m.regs, d, Shift(x * Signed(Reg(p, j)), Signed(amount))))
  {
    hide Run, Reg, Widen, ScalarMask, Pick, Updated, Multiplied, Shift, ShiftsRight, ShiftSize, ShiftByte, PlainShiftByte, Marked, FitsBits,
         ToTheRight,
         Negation, Signed, AmountFits, AmountOf;
    Settings();
    ShiftByteBack(amount);
    var h, info := Directed(b3, right, left), Word(ShiftSize(b3));
    BitsAmount(right, left, amount, FieldsAfter(f, Effect(h, info, Word(i), j, d, scalarIn, miscIn, ScalarMask(d), Replace(FLAG_MV))), p);
    ScalarRun(h, info, i, j, d, scalarIn, miscIn, f, m, p);
  }

  lemma UnsignedImmediate(n: bv32)
    requires n < 32
    ensures Signed(n) == Num32(n)
  {
  }

  /** mul of a register. */
  lemma RegisterProductRuns(r: bv32, second: bv32, amount: Amount, dest: bv32, f: Fields, m: State, p: Registers)
    requires Encodable(Mul(InRegister(r), second, amount, dest))
    ensures Run(Decoded(Mul(InRegister(r), second, amount, dest)), f, m, p)
            == m.(regs := Meaning(Mul(InRegister(r), second, amount, dest), m.regs, p))
  {
    hide First, Second, Upper, Lower, KindOf, Narrow, MarkedByte, ShiftByte, Marked, FitsBits, Run, Effect, Word, Directed, ShiftSize,
         ScalarMask, Or, Reg,
         Signed, Num32, SevenSigned, Multiplied, Shift;
    RegistersBack(0x9C, second, r);
    KindsBack();
    match amount {
      case ByAcshift =>
        PlainByte(dest);
        RegisterRun(MUL_SCALAR_ACSHIFT, Leave, 0, r, second, dest, Or(ScalarMask(second), ScalarMask(r)), Replace(MASK_ACSHIFT), f, m, p);
      case ByRegister(q) =>
        PlainByte(q);
        RegisterRun(MUL_SCALAR_SCALAR, Word(q), q, r, second, second, Or(Or(ScalarMask(second), ScalarMask(r)), ScalarMask(q)), Keep, f, m, p);
      case ByBits(a) =>
        ShiftByteBack(a);
        BitsRun(MUL_SCALAR_RIGHT, MUL_SCALAR_LEFT, a, ShiftByte(a), r, second, second, Or(ScalarMask(second), ScalarMask(r)), Keep, f, m, p);
    }
  }

  /** mul of an immediate. */
  lemma ImmediateProductRuns(n: bv32, second: bv32, amount: Amount, dest: bv32, f: Fields, m: State, p: Registers)
    requires Encodable(Mul(Immediate(n), second, amount, dest))
    ensures Run(Decoded(Mul(Immediate(n), second, amount, dest)), f, m, p) == m.(regs := Meaning(Mul(Immediate(n), second, amount, dest), m.regs, p))
  {
    hide First, Second, Upper, Lower, KindOf, Narrow, MarkedByte, PlainShiftByte, Marked, FitsBits, Run, Effect, Word, Directed, ShiftSize,
         ScalarMask, Or, Reg,
         Signed, Num32, SevenSigned, Multiplied, Shift;
    RegistersBack(0x9C, second, n);
    KindsBack();
    UnsignedImmediate(n);
    match amount {
      case ByAcshift =>
        MarkedBack(dest);
        RegisterRun(MUL_IMMEDIATE_ACSHIFT, Leave, 0, n, second, dest, ScalarMask(second), Replace(MASK_ACSHIFT), f, m, p);
      case ByRegister(q) =>
        MarkedBack(q);
        RegisterRun(MUL_IMMEDIATE_SCALAR, Word(q), q, n, second, second, Or(ScalarMask(second), ScalarMask(q)), Keep, f, m, p);
      case ByBits(a) =>
        ShiftByteBack(a);
        BitsRun(MUL_IMMEDIATE_RIGHT, MUL_IMMEDIATE_LEFT, a, PlainShiftByte(a), n, second, second, ScalarMask(second), Keep, f, m, p);
    }
  }

  // ---- Products of vectors ----

  /** The handlers that a factor has, with a shift from the instruction first. */
  function FirstHandler(lanes: nat, factor: Factor): bv64 {
    var offset := match factor case ByScalar => 0 case ByRu => 2 case ByRv => 4 case ByVector => 6;
    (if lanes == 3 then MUL_P_SCALAR else MUL_SV_SCALAR) + offset
  }

  lemma Shapes(lanes: nat, factor: Factor)
    requires lanes == 3 || lanes == 4
    ensures var h := FirstHandler(lanes, factor);
            IsLanes(h) && IsLanes(h + 1) && ShapeOf(h) == Shape(lanes, factor, false) && ShapeOf(h + 1) == Shape(lanes, factor, true)
  {
  }

  lemma DotShapes(h: bv64)
    requires h == DOTP_SCALAR || h == DOTP_VECTOR
    ensures IsDot(h) && IsDot(h + 1)
    ensures var factor := if h == DOTP_SCALAR then ByScalar else ByVector;
            ShapeOf(h) == Shape(4, factor, false) && ShapeOf(h + 1) == Shape(4, factor, true)
  {
  }

  lemma TableNumber(m: bv32)
    requires m < 4
    ensures Widen(m) <= 3 && P.Num(Widen(m)) == Num32(m)
  {
    NumOfWidened(m);
  }

  /** The last byte of a product of vectors. */
  lemma ScalingBack(s: Scaling, k: bv32)
    requires ScalingFits(s) && k < 32
    ensures var b3 := ScalingByte(s, k); Lower(b3) == k && Marked(b3) == s.ByTable? && (s.ByTable? ==> TwoBits(b3) == s.m)
  {
    hide Lower, Marked, TwoBits, Narrow, TableByte;
    PlainByte(k);
    if s.ByTable? { TableBack(s.m, k); }
  }

  /** The fields after decoding, whatever they were before. */
  lemma SmallShiftFields(first: bv64, src1: Field, vector: bv32, dest: bv32, scalarIn: bv32, scalarOut: bv32, misc: bv32, s: Scaling, k: bv32,
      f: Fields)
    requires ScalingFits(s) && k < 32
    ensures var g := FieldsAfter(f, SmallShift(first, src1, vector, dest, scalarIn, scalarOut, misc, ScalingByte(s, k)));
            && g.handler == (if s.ByTable? then first else first + 1) && (s.ByTable? ==> g.f1 == Widen(s.m))
            && (src1.Set? ==> g.f2 == src1.value) && Low32(g.f3) == vector && Low32(g.f4) == dest
  {
    hide Lower, Marked, TwoBits, ScalingByte, Widen, Low32, EndMisc, Pick, Updated;
    Settings();
    ScalingBack(s, k);
    LowOfWidened(vector);
    LowOfWidened(dest);
  }

  /** What a handler scales by is what the instruction says. */
  lemma ScaleIs(shape: Shape, s: Scaling, g: Fields, p: Registers)
    requires ScalingFits(s) && shape.svshift == s.BySvshift? && (s.ByTable? ==> g.f1 == Widen(s.m))
    ensures ScaleOf(shape, g, p) == ScaleNumber(s, p) && (!shape.svshift ==> g.f1 <= 3)
  {
    hide P.Num, Num32, Widen, Reg, Scale;
    if s.ByTable? { TableNumber(s.m); }
  }

  predicate Needed(factor: Factor) { factor.ByScalar? || factor.ByVector? }

  lemma UnusedFactor(lanes: nat, factor: Factor, r: bv32, q: bv32, vector: bv32, scale: int, d: bv32, regs: Registers, p: Registers)
    requires !Needed(factor)
    ensures Vectored(lanes, factor, r, vector, scale, d, regs, p) == Vectored(lanes, factor, q, vector, scale, d, regs, p)
  {
    hide Reg, SetReg, At, ToWord, TexelNumber, Integer;
  }

  lemma VectorRun(lanes: nat, factor: Factor, r: bv32, vector: bv32, s: Scaling, dest: bv32, src1: Field, scalarIn: bv32, scalarOut: bv32, misc: bv32,
                  f: Fields, m: State, p: Registers)
    requires (lanes == 3 || lanes == 4) && ScalingFits(s) && dest < 32 && (Needed(factor) ==> src1 == Word(r))
    ensures Run(SmallShift(FirstHandler(lanes, factor), src1, vector, dest, scalarIn, scalarOut, misc, ScalingByte(s, dest)), f, m, p)
            == m.(regs := Vectored(lanes, factor, r, vector, ScaleNumber(s, p), dest, m.regs, p))
  {
    hide FirstHandler, SmallShift, ScalingByte, Widen, Low32, Reg, SetReg, Vectored, ScaleOf, ScaleNumber, FieldsAfter, ShapeOf, Lanes, IsSum,
         IsScalar, IsLanes,
         IsDot;
    var first := FirstHandler(lanes, factor);
    var g := FieldsAfter(f, SmallShift(first, src1, vector, dest, scalarIn, scalarOut, misc, ScalingByte(s, dest)));
    SmallShiftFields(first, src1, vector, dest, scalarIn, scalarOut, misc, s, dest, f);
    Shapes(lanes, factor);
    Families(g.handler);
    LowOfWidened(r);
    ScaleIs(ShapeOf(g.handler), s, g, p);
    VectorsCompute(ShapeOf(g.handler), g, m.regs, p);
    if !Needed(factor) { UnusedFactor(lanes, factor, r, Low32(g.f2), vector, ScaleNumber(s, p), dest, m.regs, p); }
  }

  lemma DotRun(first: bv64, r: bv32, vector: bv32, s: Scaling, dest: bv32, scalarIn: bv32, scalarOut: bv32, f: Fields, m: State, p: Registers)
    requires (first == DOTP_SCALAR || first == DOTP_VECTOR) && ScalingFits(s) && dest < 32
    ensures Run(SmallShift(first, Word(r), vector, dest, scalarIn, scalarOut, 0, ScalingByte(s, dest)), f, m, p)
            == m.(regs := Dotted(if first == DOTP_SCALAR then ByScalar else ByVector, r, vector, ScaleNumber(s, p), dest, m.regs, p))
  {
    hide SmallShift, ScalingByte, Widen, Low32, Reg, SetReg, Dotted, ScaleOf, ScaleNumber, FieldsAfter, ShapeOf, DotProduct, IsSum, IsScalar,
         IsLanes, IsDot;
    var g := FieldsAfter(f, SmallShift(first, Word(r), vector, dest, scalarIn, scalarOut, 0, ScalingByte(s, dest)));
    SmallShiftFields(first, Word(r), vector, dest, scalarIn, scalarOut, 0, s, dest, f);
    DotShapes(first);
    Families(g.handler);
    LowOfWidened(r);
    ScaleIs(ShapeOf(g.handler), s, g, p);
    DotComputes(ShapeOf(g.handler), g, m.regs, p);
  }

  lemma VectorBits(r: bv32)
    requires IsVector(r)
    ensures r < 32 && VectorOf(r) == r
  {
  }

  lemma ByScalarRuns(lanes: nat, r: bv32, vector: bv32, s: Scaling, dest: bv32, f: Fields, m: State, p: Registers)
    requires (lanes == 3 || lanes == 4) && r < 32 && vector < 32 && dest < 32 && VectorOf(vector) == vector && VectorOf(dest) == dest
    requires ScalingFits(s)
    ensures Run(Mul32(First(0x9C, r), Second(r, vector), if lanes == 3 then 0x08 else 0x04, ScalingByte(s, dest)), f, m, p)
            == m.(regs := Vectored(lanes, ByScalar, r, vector, ScaleNumber(s, p), dest, m.regs, p))
  {
    hide First, Second, Upper, Lower, KindOf, ScalingByte, SmallShift, Word, VectorMask, PixelMask, ScalarMask, Or, RuAndControl, RvAndControl,
         VectorOf, Run,
         Vectored, ScaleNumber, ScalingFits;
    RegistersBack(0x9C, r, vector);
    KindsBack();
    ScalingBack(s, dest);
    if lanes == 3 {
      VectorRun(3, ByScalar, r, vector, s, dest, Word(r), Or(ScalarMask(r), PixelMask(vector)), PixelMask(dest), 0, f, m, p);
    } else {
      VectorRun(4, ByScalar, r, vector, s, dest, Word(r), Or(ScalarMask(r), VectorMask(vector)), VectorMask(dest), 0, f, m, p);
    }
  }

  lemma ByRuRuns(lanes: nat, r: bv32, vector: bv32, s: Scaling, dest: bv32, f: Fields, m: State, p: Registers)
    requires (lanes == 3 || lanes == 4) && vector < 32 && dest < 32 && VectorOf(vector) == vector && VectorOf(dest) == dest && ScalingFits(s)
    ensures Run(Mul32(First(0x9C, vector), Second(vector, 0), if lanes == 3 then 0x09 else 0x05, ScalingByte(s, dest)), f, m, p)
            == m.(regs := Vectored(lanes, ByRu, r, vector, ScaleNumber(s, p), dest, m.regs, p))
  {
    hide First, Second, Upper, Lower, KindOf, ScalingByte, SmallShift, Word, VectorMask, PixelMask, ScalarMask, Or, RuAndControl, RvAndControl,
         VectorOf, Run,
         Vectored, ScaleNumber, ScalingFits;
    RegistersBack(0x9C, vector, 0);
    KindsBack();
    ScalingBack(s, dest);
    if lanes == 3 {
      VectorRun(3, ByRu, 0, vector, s, dest, Leave, PixelMask(vector), PixelMask(dest), RuAndControl(), f, m, p);
    } else {
      VectorRun(4, ByRu, 0, vector, s, dest, Leave, VectorMask(vector), VectorMask(dest), RuAndControl(), f, m, p);
    }
    UnusedFactor(lanes, ByRu, r, 0, vector, ScaleNumber(s, p), dest, m.regs, p);
  }

  lemma ByRvRuns(lanes: nat, r: bv32, vector: bv32, s: Scaling, dest: bv32, f: Fields, m: State, p: Registers)
    requires (lanes == 3 || lanes == 4) && vector < 32 && dest < 32 && VectorOf(vector) == vector && VectorOf(dest) == dest && ScalingFits(s)
    ensures Run(Mul32(First(0x9C, vector), Second(vector, 0), if lanes == 3 then 0x0A else 0x06, ScalingByte(s, dest)), f, m, p)
            == m.(regs := Vectored(lanes, ByRv, r, vector, ScaleNumber(s, p), dest, m.regs, p))
  {
    hide First, Second, Upper, Lower, KindOf, ScalingByte, SmallShift, Word, VectorMask, PixelMask, ScalarMask, Or, RuAndControl, RvAndControl,
         VectorOf, Run,
         Vectored, ScaleNumber, ScalingFits;
    RegistersBack(0x9C, vector, 0);
    KindsBack();
    ScalingBack(s, dest);
    if lanes == 3 {
      VectorRun(3, ByRv, 0, vector, s, dest, Leave, PixelMask(vector), PixelMask(dest), RvAndControl(), f, m, p);
    } else {
      VectorRun(4, ByRv, 0, vector, s, dest, Leave, VectorMask(vector), VectorMask(dest), RvAndControl(), f, m, p);
    }
    UnusedFactor(lanes, ByRv, r, 0, vector, ScaleNumber(s, p), dest, m.regs, p);
  }

  lemma ByVectorRuns(lanes: nat, r: bv32, vector: bv32, s: Scaling, dest: bv32, f: Fields, m: State, p: Registers)
    requires (lanes == 3 || lanes == 4) && r < 32 && VectorOf(r) == r && vector < 32 && dest < 32 && VectorOf(vector) == vector
    requires VectorOf(dest) == dest && ScalingFits(s)
    ensures Run(Mul32(First(0x9C, vector), Second(vector, r), if lanes == 3 then 0x0B else 0x07, ScalingByte(s, dest)), f, m, p)
            == m.(regs := Vectored(lanes, ByVector, r, vector, ScaleNumber(s, p), dest, m.regs, p))
  {
    hide First, Second, Upper, Lower, KindOf, ScalingByte, SmallShift, Word, VectorMask, PixelMask, ScalarMask, Or, RuAndControl, RvAndControl,
         VectorOf, Run,
         Vectored, ScaleNumber, ScalingFits;
    RegistersBack(0x9C, vector, r);
    KindsBack();
    ScalingBack(s, dest);
    if lanes == 3 {
      VectorRun(3, ByVector, r, vector, s, dest, Word(r), Or(PixelMask(vector), PixelMask(r)), PixelMask(dest), 0, f, m, p);
    } else {
      VectorRun(4, ByVector, r, vector, s, dest, Word(r), Or(VectorMask(vector), VectorMask(r)), VectorMask(dest), 0, f, m, p);
    }
  }

  lemma DotpRuns(factor: Factor, r: bv32, vector: bv32, s: Scaling, dest: bv32, f: Fields, m: State, p: Registers)
    requires Needed(factor) && r < 32 && vector < 32 && VectorOf(vector) == vector && dest < 32 && ScalingFits(s)
    requires factor.ByVector? ==> VectorOf(r) == r
    ensures Run(Mul32(First(0x9C, r), Second(r, vector), if factor.ByScalar? then 0x0C else 0x0D, ScalingByte(s, dest)), f, m, p)
            == m.(regs := Dotted(factor, r, vector, ScaleNumber(s, p), dest, m.regs, p))
  {
    hide First, Second, Upper, Lower, KindOf, ScalingByte, SmallShift, Word, VectorMask, PixelMask, ScalarMask, Or, VectorOf, Run, Dotted,
         ScaleNumber,
         ScalingFits;
    RegistersBack(0x9C, r, vector);
    KindsBack();
    ScalingBack(s, dest);
    if factor.ByScalar? {
      DotRun(DOTP_SCALAR, r, vector, s, dest, Or(ScalarMask(r), VectorMask(vector)), ScalarMask(dest), f, m, p);
    } else {
      DotRun(DOTP_VECTOR, r, vector, s, dest, Or(VectorMask(r), VectorMask(vector)), ScalarMask(dest), f, m, p);
    }
  }

  lemma VectorKinds()
    ensures (0x08 as Byte) + 0 == 0x08 && (0x08 as Byte) + 1 == 0x09 && (0x08 as Byte) + 2 == 0x0A && (0x08 as Byte) + 3 == 0x0B
    ensures (0x04 as Byte) + 0 == 0x04 && (0x04 as Byte) + 1 == 0x05 && (0x04 as Byte) + 2 == 0x06 && (0x04 as Byte) + 3 == 0x07
  {
  }

  lemma VectorsByUnitRun(op: Multiplication, f: Fields, m: State, p: Registers)
    requires op.Vector? && !Needed(op.factor) && Encodable(op)
    ensures Run(Decoded(op), f, m, p) == m.(regs := Meaning(op, m.regs, p))
  {
    hide Mul32, First, Second, ScalingByte, Run, Vectored, ScaleNumber, IsVector, ScalingFits;
    VectorKinds();
    VectorBits(op.vector);
    VectorBits(op.dest);
    if op.factor.ByRu? {
      ByRuRuns(op.lanes, op.r, op.vector, op.scaling, op.dest, f, m, p);
    } else {
      ByRvRuns(op.lanes, op.r, op.vector, op.scaling, op.dest, f, m, p);
    }
  }

  lemma VectorsByRegisterRun(op: Multiplication, f: Fields, m: State, p: Registers)
    requires op.Vector? && Needed(op.factor) && Encodable(op)
    ensures Run(Decoded(op), f, m, p) == m.(regs := Meaning(op, m.regs, p))
  {
    hide Mul32, First, Second, ScalingByte, Run, Vectored, ScaleNumber, IsVector, ScalingFits;
    VectorKinds();
    VectorBits(op.vector);
    VectorBits(op.dest);
    if op.factor.ByScalar? {
      ByScalarRuns(op.lanes, op.r, op.vector, op.scaling, op.dest, f, m, p);
    } else {
      VectorBits(op.r);
      ByVectorRuns(op.lanes, op.r, op.vector, op.scaling, op.dest, f, m, p);
    }
  }

  lemma DotsRun(op: Multiplication, f: Fields, m: State, p: Registers)
    requires op.Dotp? && Encodable(op)
    ensures Run(Decoded(op), f, m, p) == m.(regs := Meaning(op, m.regs, p))
  {
    hide Mul32, First, Second, Run, IsVector, ScalingByte, Dotted, ScaleNumber, ScalingFits;
    VectorBits(op.vector);
    if op.factor.ByVector? { VectorBits(op.r); }
    DotpRuns(op.factor, op.r, op.vector, op.scaling, op.dest, f, m, p);
  }

  lemma AddedRuns(op: Multiplication, f: Fields, m: State, p: Registers)
    requires (op.Addm? || op.Subm?) && Encodable(op)
    ensures Run(Decoded(op), f, m, p) == m.(regs := Meaning(op, m.regs, p))
  {
    hide Decoded, Run, Sums, Reg, SetReg, ToWord, Signed;
    SumsDecode(op.x, op.y, op.dest);
    SumsRun(if op.Addm? then ADDM else SUBM, op.x, op.y, op.dest, f, m, p);
  }

  /** Running what any encoded multiplier instruction decodes to does, in every state and whatever the slot held before,
      what the instruction means on the registers that it names, and nothing else. */
  lemma EncodedRuns(op: Multiplication, f: Fields, m: State, p: Registers)
    requires Encodable(op)
    ensures Run(Decoded(op), f, m, p) == m.(regs := Meaning(op, m.regs, p))
  {
    hide Decoded, Meaning, Encodable, Run;
    match op {
      case Mul(InRegister(r), second, amount, dest) => RegisterProductRuns(r, second, amount, dest, f, m, p);
      case Mul(Immediate(n), second, amount, dest) => ImmediateProductRuns(n, second, amount, dest, f, m, p);
      case Vector(_, _, _, _, _, _) => if Needed(op.factor) { VectorsByRegisterRun(op, f, m, p); } else { VectorsByUnitRun(op, f, m, p); }
      case Dotp(_, _, _, _, _) => DotsRun(op, f, m, p);
      case Addm(_, _, _) => AddedRuns(op, f, m, p);
      case Subm(_, _, _) => AddedRuns(op, f, m, p);
    }
  }

  /** The 16-bit forms likewise: mul Si, Sk, >>acshift, Sk and mul_sv Vi, Vk, >>svshift, Vk. */
  lemma CompressedRuns(i: bv32, k: bv32, f: Fields, m: State, p: Registers)
    requires i < 32 && k < 32
    ensures Run(Mul16(First(0x40, k), Second(k, i)), f, m, p) == m.(regs := Meaning(Mul(InRegister(i), k, ByAcshift, k), m.regs, p))
    ensures IsVector(i) && IsVector(k)
            ==> Run(Mul16(First(0x44, k), Second(k, i)), f, m, p) == m.(regs := Meaning(Vector(4, ByVector, i, k, BySvshift, k), m.regs, p))
  {
    hide Mul16, Mul32, First, Second, Narrow, Run, Meaning, IsVector;
    ScalarFormsAgree(i, k);
    VectorFormsAgree(i, k);
    EncodedRuns(Mul(InRegister(i), k, ByAcshift, k), f, m, p);
    if IsVector(i) && IsVector(k) { EncodedRuns(Vector(4, ByVector, i, k, BySvshift, k), f, m, p); }
  }
}
