/** Every register-unit instruction: what running its decoded bytes does to index registers and counters, in numbers. */
module RcuForms {
  import opened Conversions
  import opened DecodeRcu
  import opened Dependencies
  import opened ExecuteRcu
  import opened Handlers
  import opened InstructionEntry
  import opened Machine
  import opened MulArithmetic
  import opened OperandForms
  import opened SignedWords
  import opened Words
  import L = LaneArithmetic
  import Mixing
  import P = Products

  // ---- Counters ----

  /** A counter goes down to zero and stays there; its flag is set if and only if it is zero then. */
  lemma CountDownIs(regs: Registers, counter: bv32, zero: bv32)
    requires 33 <= counter < 48 && (zero == COUNTER0_ZERO || zero == COUNTER1_ZERO)
    ensures var q, n := CountDown(regs, counter, zero), Num32(Reg(regs, counter));
            && Num32(Reg(q, counter)) == (if n == 0 then 0 else n - 1)
            && (Reg(q, CC) & zero != 0 <==> Num32(Reg(q, counter)) == 0)
            && (Reg(q, CC) ^ Reg(regs, CC)) & !zero == 0
            && (forall r :: r != CC && r != counter ==> Reg(q, r) == Reg(regs, r))
  {
    hide Num32, Reg, SetReg, CounterFlags, Less1;
    var cc, n := CounterFlags(Reg(regs, CC), zero, Reg(regs, counter)), Less1(Reg(regs, counter));
    LessNum(Reg(regs, counter));
    CounterFlag(Reg(regs, CC), zero, Reg(regs, counter));
    forall r ensures Reg(CountDown(regs, counter, zero), r) == if r == counter then n else if r == CC then cc else Reg(regs, r) {
      RegAfterSet(regs, CC, cc, r);
      RegAfterSet(SetReg(regs, CC, cc), counter, n, r);
    }
  }

  lemma CounterFlag(cc: bv32, zero: bv32, count: bv32)
    requires zero == COUNTER0_ZERO || zero == COUNTER1_ZERO
    ensures CounterFlags(cc, zero, count) & zero != 0 <==> Less1(count) == 0
    ensures (CounterFlags(cc, zero, count) ^ cc) & !zero == 0
  {
  }

  lemma NumberOf1()
    ensures Num32(0) == 0 && Num32(1) == 1
  {
  }

  lemma LessNum(n: bv32)
    ensures Num32(Less1(n)) == if Num32(n) == 0 then 0 else Num32(n) - 1
    ensures Less1(n) == 0 <==> Num32(Less1(n)) == 0
  {
    hide Num32, Mixing.Sub32;
    NumberOf1();
    EqualNums(n, 0);
    EqualNums(Less1(n), 0);
    NumOfWidened(n);
    hide P.Num;
    L.SubIs(n, 1, Num32(n), 1);
  }

  // ---- Integer parts ----

  lemma HalvesSum(x: bv32)
    ensures Mixing.Add64(Widen(WholePart(x)), Widen(FractionPart(x))) == Widen(x)
  {
  }

  lemma HalvesShifted(x: bv32)
    ensures Left(Right(Widen(x), 16), 16) == Widen(WholePart(x)) && Right(Widen(FractionPart(x)), 16) == 0
    ensures WholePart(x) & 0x80000000 == x & 0x80000000
  {
  }

  lemma Halves(x: bv32)
    ensures Mixing.Add64(Widen(WholePart(x)), Widen(FractionPart(x))) == Widen(x)
    ensures Mixing.Add64(Left(Right(Widen(x), 16), 16), Widen(FractionPart(x))) == Widen(x) && Right(Widen(FractionPart(x)), 16) == 0
    ensures WholePart(x) & 0x80000000 == x & 0x80000000
  {
    hide Widen, WholePart, FractionPart, Left, Right, Mixing.Add64;
    HalvesSum(x);
    HalvesShifted(x);
  }

  lemma Amount16()
    ensures Amount(16) == 16 && Amount(10) == 10
  {
  }

  lemma FractionNum(x: bv32)
    ensures Num32(FractionPart(x)) == Num32(x) % 65536
  {
    hide P.Num, Num32, Left, Right, Widen, FractionPart, WholePart, Mixing.Add64;
    Halves(x);
    Amount16();
    Powers();
    PartNum(Widen(x), Widen(FractionPart(x)), 16);
    NumOfWidened(x);
    NumOfWidened(FractionPart(x));
  }

  lemma SameRemainder(x: bv32)
    ensures Num32(x) % 65536 == Signed(x) % 65536
  {
    hide Num32;
    ModPlus(Num32(x), -65536, 65536);
  }

  /** The word without its fraction is the integer part, in place. */
  lemma WholeSigned(x: bv32)
    ensures Signed(WholePart(x)) == L.Integer(x) * 65536
  {
    hide P.Num, Num32, Left, Right, Widen, FractionPart, WholePart, Mixing.Add64;
    Halves(x);
    FractionNum(x);
    SameRemainder(x);
    NumOfWidened(x);
    NumOfWidened(WholePart(x));
    NumOfWidened(FractionPart(x));
    P.AddNum(Widen(WholePart(x)), Widen(FractionPart(x)));
  }

  // ---- Ranges ----

  /** The range of an index register: ten bits of xyrange or uvrange. */
  function RangeNumber(p: Registers, i: bv32): nat {
    var n := Num32(Reg(p, if i <= 1 then XYRANGE else UVRANGE));
    if i == 0 || i == 2 then n / 65536 % 1024 else n % 1024
  }

  function Ten(x: bv32): bv32 { x & 0x3FF }
  function Shifted16(x: bv32): bv32 { x >> 16 }
  function InPlace16(x: bv32): bv32 { x << 16 }

  lemma TenParts(x: bv32)
    ensures Mixing.Add64(Left(Right(Widen(x), 10), 10), Widen(Ten(x))) == Widen(x) && Right(Widen(Ten(x)), 10) == 0
    ensures Right(Widen(x), 16) == Widen(Shifted16(x))
    ensures UpperRange(x) == InPlace16(Ten(Shifted16(x))) && LowerRange(x) == InPlace16(Ten(x))
    ensures Widen(InPlace16(Ten(x))) == Left(Widen(Ten(x)), 16) && InPlace16(Ten(x)) & 0x80000000 == 0
  {
  }

  lemma TenNum(x: bv32)
    ensures Num32(Ten(x)) == Num32(x) % 1024
  {
    hide P.Num, Num32, Left, Right, Widen, Ten, Shifted16, InPlace16, UpperRange, LowerRange, Mixing.Add64;
    TenParts(x);
    Amount16();
    Powers();
    PowerOf10();
    PartNum(Widen(x), Widen(Ten(x)), 10);
    NumOfWidened(x);
    NumOfWidened(Ten(x));
  }

  lemma PowerOf10()
    ensures Pow2(10) == 1024
  {
  }

  lemma InPlaceNum(x: bv32)
    ensures Num32(InPlace16(Ten(x))) == Num32(x) % 1024 * 65536 && Signed(InPlace16(Ten(x))) == Num32(x) % 1024 * 65536
  {
    hide P.Num, Num32, Left, Right, Widen, Ten, Shifted16, InPlace16, UpperRange, LowerRange, Mixing.Add64;
    TenParts(x);
    TenNum(x);
    Amount16();
    Powers();
    LeftNum(Widen(Ten(x)), 16);
    NumOfWidened(Ten(x));
    NumOfWidened(InPlace16(Ten(x)));
  }

  lemma RangesNum(x: bv32)
    ensures Signed(UpperRange(x)) == Num32(x) / 65536 % 1024 * 65536 && Signed(LowerRange(x)) == Num32(x) % 1024 * 65536
  {
    hide P.Num, Num32, Left, Right, Widen, Ten, Shifted16, InPlace16, UpperRange, LowerRange, Mixing.Add64, Signed;
    TenParts(x);
    InPlaceNum(x);
    InPlaceNum(Shifted16(x));
    Amount16();
    Powers();
    RightNum(Widen(x), 16);
    NumOfWidened(x);
    NumOfWidened(Shifted16(x));
  }

  lemma RangeIs(p: Registers, i: bv32)
    requires i < 4
    ensures Signed(RangeOf(p, i)) == RangeNumber(p, i) * 65536 && RangeNumber(p, i) < 1024
  {
    hide Num32, Signed, Reg, UpperRange, LowerRange;
    FourIndices(i);
    RangesNum(Reg(p, XYRANGE));
    RangesNum(Reg(p, UVRANGE));
  }

  lemma FourIndices(i: bv32)
    requires i < 4
    ensures i == 0 || i == 1 || i == 2 || i == 3
  {
  }

  // ---- Modulo and range ----

  /** What a modulo adds to the integer part n: one range less above it, one more below zero. */
  function Correction(n: int, range: int): int { if n >= range then -range else if n < 0 then range else 0 }

  /** One correction brings the integer part into its range, congruent to what it was, if and only if it was less than one range
      away on either side. */
  lemma ModuloLaw(n: int, range: int)
    requires range >= 0
    ensures 0 <= n + Correction(n, range) < range <==> -range <= n < 2 * range
    ensures range > 0 ==> (n + Correction(n, range)) % range == n % range
    ensures -range <= n < 2 * range ==> n + Correction(n, range) == n % range
  {
    if -range <= n < 2 * range {
      DivUnique(n, range, if n >= range then 1 else if n < 0 then -1 else 0, n + Correction(n, range));
    }
    if range > 0 { ModPlus(n, if n >= range then -1 else if n < 0 then 1 else 0, range); }
  }

  /** Beyond its range and below zero. */
  function RangeTested(cc: bv32, n: int, range: int): bv32 {
    var none := ClearBits(cc, 0x180);
    if n >= range then SetBits(none, MODGE) else if n < 0 then SetBits(none, MODMI) else none
  }

  /** The two flags, and no other flag changed. */
  predicate RangeResult(cc: bv32, q: bv32, beyond: bool, below: bool) {
    (q & MODGE != 0) == beyond && (q & MODMI != 0) == below && (q ^ cc) & !0x180 == 0
  }

  lemma NeitherFlag(cc: bv32)
    ensures RangeResult(cc, ClearBits(cc, 0x180), false, false)
  {
  }

  lemma BeyondFlag(cc: bv32)
    ensures RangeResult(cc, SetBits(ClearBits(cc, 0x180), MODGE), true, false)
  {
  }

  lemma BelowFlag(cc: bv32)
    ensures RangeResult(cc, SetBits(ClearBits(cc, 0x180), MODMI), false, true)
  {
  }

  lemma TestedFlags(cc: bv32, n: int, range: int)
    requires range >= 0
    ensures RangeResult(cc, RangeTested(cc, n, range), n >= range, n < 0)
  {
    hide RangeResult, SetBits, ClearBits;
    NeitherFlag(cc);
    BeyondFlag(cc);
    BelowFlag(cc);
  }

  lemma SignOfInteger(x: bv32)
    ensures Negative(x) <==> L.Integer(x) < 0
  {
    hide Num32;
    SignNum32(x);
    NumOfWidened(x);
    hide P.Num;
  }

  lemma ReachesIs(x: bv32, range: bv32, r: nat)
    requires Signed(range) == r * 65536
    ensures Reaches(x, range) <==> L.Integer(x) >= r
  {
    hide Signed, WholePart;
    WholeSigned(x);
  }

  /** The wrapped register, as a signed number. */
  lemma WrappedSigned(x: bv32, range: bv32, r: nat)
    requires Signed(range) == r * 65536 && r < 1024
    ensures Signed(Wrapped(x, range)) == Signed(x) + Correction(L.Integer(x), r) * 65536
    ensures FractionPart(Wrapped(x, range)) == FractionPart(x)
  {
    hide Num32, Signed, Reaches, Negative, FractionPart, Mixing.Add32, Mixing.Sub32;
    ReachesIs(x, range, r);
    SignOfInteger(x);
    SignedRange32(x);
    SignedRange32(range);
    L.AddIs(x, range, Signed(x), r * 65536);
    L.SubIs(x, range, Signed(x), r * 65536);
    var w, z := Wrapped(x, range), Signed(x) + Correction(L.Integer(x), r) * 65536;
    assert Num32(w) == z % TWO_32;
    SignedRange32(w);
    IntegerBounds(x);
    CongruentSmall(Signed(w), z);
    SameFraction(x, w, Correction(L.Integer(x), r));
  }

  lemma IntegerBounds(x: bv32)
    ensures L.Integer(x) * 65536 <= Signed(x) < L.Integer(x) * 65536 + 65536
  {
    hide Signed;
  }

  lemma SameFraction(x: bv32, w: bv32, k: int)
    requires Signed(w) == Signed(x) + k * 65536
    ensures FractionPart(w) == FractionPart(x)
  {
    hide Num32, Signed, FractionPart;
    FractionNum(x);
    FractionNum(w);
    SameRemainder(x);
    SameRemainder(w);
    ModPlus(Signed(x), k, 65536);
    EqualNums(FractionPart(x), FractionPart(w));
  }

  lemma Rejoined(x: bv32, w: bv32)
    requires FractionPart(w) == FractionPart(x)
    ensures NewInteger(x, w) == w
  {
  }

  lemma SignedToWord(x: bv32, z: int)
    requires Signed(x) == z
    ensures x == ToWord(z)
  {
    hide Num32, Signed, ToWord;
    SignedRange32(x);
    ToWordIs(x, z);
  }

  /** What a modulo puts into its register. */
  lemma ModuloComputes(x: bv32, range: bv32, r: nat)
    requires Signed(range) == r * 65536 && r < 1024
    ensures NewInteger(x, Wrapped(x, range)) == ToWord(Signed(x) + Correction(L.Integer(x), r) * 65536)
  {
    hide Signed, ToWord, Wrapped, FractionPart, NewInteger;
    WrappedSigned(x, range, r);
    Rejoined(x, Wrapped(x, range));
    SignedToWord(Wrapped(x, range), Signed(x) + Correction(L.Integer(x), r) * 65536);
  }

  lemma FlagsCompute(cc: bv32, x: bv32, range: bv32, r: nat)
    requires Signed(range) == r * 65536
    ensures RangeFlags(cc, x, range) == RangeTested(cc, L.Integer(x), r)
  {
    hide Signed, Reaches, Negative, SetBits, ClearBits;
    ReachesIs(x, range, r);
    SignOfInteger(x);
  }

  // ---- Instructions ----

  /** Adding to an index register, replacing it, testing it against its range, bringing it back into it. */
  datatype Operation = AddNumber(v: bv32) | AddScalar(s: bv32) | MoveNumber(v: bv32) | MoveScalar(s: bv32) | Range | Modulo

  function Counted(regs: Registers, counter: bv32, zero: bv32): Registers {
    var n := Num32(Reg(regs, counter));
    var cc := if n <= 1 then SetBits(Reg(regs, CC), zero) else ClearBits(Reg(regs, CC), zero);
    SetReg(SetReg(regs, CC, cc), counter, ToWord(if n == 0 then 0 else n - 1))
  }

  /** The counters of an instruction: bit 1 for rc0, bit 0 for rc1. */
  function CountedBy(regs: Registers, dec: Byte): Registers {
    var one := if dec & 2 != 0 then Counted(regs, RC0, COUNTER0_ZERO) else regs;
    if dec & 1 != 0 then Counted(one, RC1, COUNTER1_ZERO) else one
  }

  function IndexMeaning(op: Operation, i: bv32, regs: Registers, p: Registers): Registers {
    var r := INDEX + i;
    var x := Reg(p, r);
    match op
    case AddNumber(v) => SetReg(regs, r, ToWord(Signed(x) + Signed(v)))
    case AddScalar(s) => SetReg(regs, r, ToWord(Signed(x) + Signed(Reg(p, s))))
    case MoveNumber(v) => SetReg(regs, r, v)
    case MoveScalar(s) => SetReg(regs, r, Reg(p, s))
    case Range => SetReg(regs, CC, RangeTested(Reg(regs, CC), L.Integer(x), RangeNumber(p, i)))
    case Modulo =>
      SetReg(SetReg(regs, CC, RangeTested(Reg(regs, CC), L.Integer(x), RangeNumber(p, i))), r,
             ToWord(Signed(x) + Correction(L.Integer(x), RangeNumber(p, i)) * 65536))
  }

  function Run(e: Effects, f: Fields, m: State, p: Registers): State {
    ExecuteRcu.Execute(FieldsAfter(f, e), m, p)
  }

  // ---- Counting ----

  lemma CountedIs(regs: Registers, counter: bv32, zero: bv32)
    ensures CountDown(regs, counter, zero) == Counted(regs, counter, zero)
  {
    hide Num32, Reg, SetReg, SetBits, ClearBits, Less1, ToWord;
    var n := Reg(regs, counter);
    LessNum(n);
    NumberOf1();
    EqualNums(n, 0);
    EqualNums(n, 1);
    NumOfWidened(Less1(n));
    hide P.Num;
    ToWordIs(Less1(n), if Num32(n) == 0 then 0 else Num32(n) - 1);
  }

  lemma CountersBits(dec: Byte)
    ensures var info := Widen(Wide(dec & 0x03)); (Counts0(info) <==> dec & 2 != 0) && (Counts1(info) <==> dec & 1 != 0)
  {
  }

  lemma CountedDownIs(regs: Registers, dec: Byte)
    ensures CountedDown(regs, Widen(Wide(dec & 0x03))) == CountedBy(regs, dec)
  {
    hide Counts0, Counts1, CountDown, Counted, Widen, Wide;
    CountersBits(dec);
    CountedIs(regs, RC0, COUNTER0_ZERO);
    var one := if dec & 2 != 0 then Counted(regs, RC0, COUNTER0_ZERO) else regs;
    CountedIs(one, RC1, COUNTER1_ZERO);
  }

  // ---- Fields of decoded operations ----

  /** The encoded fields: destination, counters and the bit that tells immediates and ranges from registers. */
  function SecondByte(low: bv32, i: bv32, bit2: Byte, dec: Byte): Byte {
    Narrow((low & 0x07) << 5) | Narrow((i & 0x03) << 3) | (bit2 & 0x04) | (dec & 0x03)
  }

  function FirstByte(opcode: Byte, s: bv32): Byte { opcode | Narrow((s >> 3) & 0x03) }

  lemma SecondFields(low: bv32, i: bv32, bit2: Byte, dec: Byte)
    requires i < 4
    ensures var b1 := SecondByte(low, i, bit2, dec); DestField(b1) == i && DecInfo(b1) == dec & 0x03 && (Bit2(b1) <==> bit2 & 0x04 != 0)
  {
  }

  lemma SourceBack(opcode: Byte, s: bv32, i: bv32, bit2: Byte, dec: Byte)
    requires s < 32 && opcode & 0x03 == 0
    ensures SrcField(FirstByte(opcode, s), SecondByte(s, i, bit2, dec)) == s
  {
  }

  lemma FirstForms(s: bv32)
    ensures IsAddrForm(FirstByte(0x74, s)) && FirstByte(0x74, s) != 0xF9 && !IsAddrForm(FirstByte(0x78, s)) && FirstByte(0x78, s) != 0xF9
  {
  }

  predicate IsFirst(h: bv64) { h == ADDR_IMMEDIATE || h == ADDR_SCALAR || h == MVR_IMMEDIATE || h == MVR_SCALAR || h == RANGE || h == MODULO }

  lemma Neighbours(h: bv64, b1: Byte)
    requires IsFirst(h)
    ensures var c := Counting(h, b1); InUnit(c) && !(DEC_RC1 <= c <= DEC_BOTH) && (AlsoCounts(c) <==> DecInfo(b1) != 0)
  {
  }

  lemma NoCounters(regs: Registers)
    ensures CountedBy(regs, 0) == regs
  {
  }

  /** Any of the operations: its own part on the registers, then the counters. */
  lemma EffectRuns(h: bv64, b1: Byte, src: bv64, scalarIn: Update, miscIn: Update, miscOut: bv32, f: Fields, m: State, p: Registers)
    requires IsFirst(h)
    ensures var e := Effect(h, b1, src, scalarIn, miscIn, miscOut);
            Run(e, f, m, p) == m.(regs := CountedBy(Operated(FieldsAfter(f, e), m.regs, p), DecInfo(b1)))
  {
    hide Operated, CountedDown, CountedBy, Counting, DestField, DecMask, DecInfo, Or, Widen, Pick, Updated, IsFirst, InUnit, AlsoCounts;
    Settings();
    Neighbours(h, b1);
    InfoBits(b1);
    var e := Effect(h, b1, src, scalarIn, miscIn, miscOut);
    var one := Operated(FieldsAfter(f, e), m.regs, p);
    NoCounters(one);
    CountedDownIs(one, DecInfo(b1));
  }

  lemma InfoBits(b1: Byte)
    ensures DecInfo(b1) & 0x03 == DecInfo(b1)
  {
  }

  lemma CountedByBits(regs: Registers, dec: Byte)
    ensures CountedBy(regs, dec & 0x03) == CountedBy(regs, dec)
  {
    hide Counted;
    DecBits(dec);
  }

  lemma DecBits(dec: Byte)
    ensures (dec & 0x03) & 2 == dec & 2 && (dec & 0x03) & 1 == dec & 1
  {
  }

  // ---- The operations ----

  function FirstHandler(op: Operation): bv64 {
    match op
    case AddNumber(_) => ADDR_IMMEDIATE
    case AddScalar(_) => ADDR_SCALAR
    case MoveNumber(_) => MVR_IMMEDIATE
    case MoveScalar(_) => MVR_SCALAR
    case Range => RANGE
    case Modulo => MODULO
  }

  function SourceField(op: Operation, i: bv32): bv32 {
    match op
    case AddNumber(v) => v
    case AddScalar(s) => s
    case MoveNumber(v) => v
    case MoveScalar(s) => s
    case _ => i
  }

  lemma AddSigned(x: bv32, y: bv32)
    ensures Mixing.Add32(x, y) == ToWord(Signed(x) + Signed(y))
  {
    hide Signed, ToWord, Mixing.Add32;
    L.SumComputes(ADDM, x, y);
  }

  lemma OperatedIs(op: Operation, i: bv32, g: Fields, regs: Registers, p: Registers)
    requires i < 4 && Low32(g.f3) == i && Low32(g.f2) == SourceField(op, i)
    requires g.handler == FirstHandler(op) || g.handler == FirstHandler(op) + 1
    ensures Operated(g, regs, p) == IndexMeaning(op, i, regs, p)
  {
    hide Signed, ToWord, Reg, SetReg, Mixing.Add32, Low32, RangeFlags, RangeTested, Wrapped, NewInteger, RangeOf, RangeNumber, Correction;
    var x, range, r := Reg(p, IndexReg(i)), RangeOf(p, i), RangeNumber(p, i);
    match op {
      case AddNumber(v) => AddSigned(x, v);
      case AddScalar(s) => AddSigned(x, Reg(p, s));
      case MoveNumber(v) =>
      case MoveScalar(s) =>
      case Range =>
        RangeIs(p, i);
        FlagsCompute(Reg(regs, CC), x, range, r);
      case Modulo =>
        RangeIs(p, i);
        FlagsCompute(Reg(regs, CC), x, range, r);
        ModuloComputes(x, range, r);
    }
  }

  /** Runs of the effects that the forms decode to. */
  lemma OperationRuns(op: Operation, i: bv32, b1: Byte, src: bv64, scalarIn: Update, miscIn: Update, miscOut: bv32, f: Fields, m: State, p: Registers)
    requires i < 4 && DestField(b1) == i && Low32(src) == SourceField(op, i)
    ensures Run(Effect(FirstHandler(op), b1, src, scalarIn, miscIn, miscOut), f, m, p)
            == m.(regs := CountedBy(IndexMeaning(op, i, m.regs, p), DecInfo(b1)))
  {
    hide Run, Operated, IndexMeaning, CountedBy, DestField, DecMask, DecInfo, Or, Widen, Low32, Pick, Updated, SourceField;
    Settings();
    EffectRuns(FirstHandler(op), b1, src, scalarIn, miscIn, miscOut, f, m, p);
    LowOfWidened(i);
    OperatedIs(op, i, FieldsAfter(f, Effect(FirstHandler(op), b1, src, scalarIn, miscIn, miscOut)), m.regs, p);
  }

  // ---- The encodings ----

  function OpFirst(op: Operation): Byte {
    match op
    case AddNumber(v) => FirstByte(0x74, MiddleBits(v))
    case AddScalar(s) => FirstByte(0x74, s)
    case MoveNumber(v) => FirstByte(0x78, MiddleBits(v))
    case MoveScalar(s) => FirstByte(0x78, s)
    case Range => 0x7A
    case Modulo => 0x78
  }

  function OpSecond(op: Operation, i: bv32, dec: Byte): Byte {
    match op
    case AddNumber(v) => SecondByte(MiddleBits(v), i, 4, dec)
    case AddScalar(s) => SecondByte(s, i, 0, dec)
    case MoveNumber(v) => SecondByte(MiddleBits(v), i, 0, dec)
    case MoveScalar(s) => SecondByte(s, i, 0, dec)
    case Range => SecondByte(0, i, 4, dec)
    case Modulo => SecondByte(0, i, 4, dec)
  }

  /** Scalars are registers that exist; numbers need an extension word with their outer bits, short ones that are added do without. */
  predicate Encodes(op: Operation, immExt: bv32) {
    match op
    case AddNumber(v) => if immExt == 0 then FitsShort(v) else immExt & 0x07FFFFFF == OuterBits(v)
    case AddScalar(s) => s < 32
    case MoveNumber(v) => immExt != 0 && immExt & 0x07FFFFFF == OuterBits(v)
    case MoveScalar(s) => immExt == 0 && s < 32
    case _ => immExt == 0
  }

  lemma NumberBytes(v: bv32, i: bv32, dec: Byte)
    requires i < 4
    ensures FirstByte(0x74, MiddleBits(v)) == AddrFirst(v) && FirstByte(0x78, MiddleBits(v)) == MvrFirst(v)
    ensures SecondByte(MiddleBits(v), i, 4, dec) == AddrSecond(v, Narrow(i), 4, dec)
    ensures SecondByte(MiddleBits(v), i, 0, dec) == AddrSecond(v, Narrow(i), 0, dec)
  {
  }

  lemma NumberRuns(op: Operation, i: bv32, dec: Byte, immExt: bv32, f: Fields, m: State, p: Registers)
    requires i < 4 && Encodes(op, immExt) && (op.AddNumber? || op.MoveNumber?)
    ensures Run(Rcu16(OpFirst(op), OpSecond(op, i, dec), immExt), f, m, p) == m.(regs := CountedBy(IndexMeaning(op, i, m.regs, p), dec))
  {
    hide Run, Rcu16, IndexMeaning, CountedBy, FirstByte, SecondByte, AddrFirst, MvrFirst, AddrSecond, DestField, DecInfo, DecMask, MiddleBits,
         OuterBits, FitsShort,
         Widen, SignExtend, Low32, IndexMask, Or, Effect, Narrow;
    var v, b1 := op.v, OpSecond(op, i, dec);
    NumberBytes(v, i, dec);
    SecondFields(MiddleBits(v), i, if op.AddNumber? then 4 else 0, dec);
    LowOfWidened(v);
    CountedByBits(IndexMeaning(op, i, m.regs, p), dec);
    var index := IndexMask(DestField(b1));
    if op.MoveNumber? {
      MvrImmediateBack(v, Narrow(i), dec, immExt);
      OperationRuns(op, i, b1, Widen(v), Keep, Merge(DecMask(b1)), index, f, m, p);
    } else {
      AddrDecodes(v, Narrow(i), dec, immExt);
      OperationRuns(op, i, b1, if immExt == 0 then SignExtend(v) else Widen(v), Keep, Merge(Or(DecMask(b1), index)), index, f, m, p);
    }
  }

  lemma SomeExtension(v: bv32)
    ensures (0x80000000 | OuterBits(v)) & 0x07FFFFFF == OuterBits(v) && 0x80000000 | OuterBits(v) != 0
  {
  }

  lemma AddrDecodes(v: bv32, dest: Byte, dec: Byte, immExt: bv32)
    requires if immExt == 0 then FitsShort(v) else immExt & 0x07FFFFFF == OuterBits(v)
    ensures var b1 := AddrSecond(v, dest, 4, dec); Rcu16(AddrFirst(v), b1, immExt) == AddrOf(b1, if immExt == 0 then SignExtend(v) else Widen(v))
  {
    hide Rcu16, AddrFirst, AddrSecond, AddrOf, OuterBits, FitsShort, SignExtend, Widen;
    SomeExtension(v);
    AddrImmediatesBack(v, dest, dec, if immExt == 0 then 0x80000000 | OuterBits(v) else immExt);
  }

  lemma RangeFirsts()
    ensures Bit1(0x7A) && !Bit1(0x78) && !IsAddrForm(0x7A) && !IsAddrForm(0x78)
  {
  }

  lemma ScalarRuns(op: Operation, i: bv32, dec: Byte, immExt: bv32, f: Fields, m: State, p: Registers)
    requires i < 4 && Encodes(op, immExt) && (op.AddScalar? || op.MoveScalar?)
    ensures Run(Rcu16(OpFirst(op), OpSecond(op, i, dec), immExt), f, m, p) == m.(regs := CountedBy(IndexMeaning(op, i, m.regs, p), dec))
  {
    hide Run, IndexMeaning, CountedBy, FirstByte, SecondByte, DestField, SrcField, DecInfo, DecMask, Widen, Low32, IndexMask, ScalarMask, Or,
         Effect, Bit2,
         IsAddrForm, LongImmediate;
    var s, b1 := op.s, OpSecond(op, i, dec);
    FirstForms(s);
    SecondFields(s, i, 0, dec);
    NoBit2();
    SourceBack(if op.AddScalar? then 0x74 else 0x78, s, i, 0, dec);
    LowOfWidened(s);
    CountedByBits(IndexMeaning(op, i, m.regs, p), dec);
    var index := IndexMask(DestField(b1));
    OperationRuns(op, i, b1, Widen(s), Merge(ScalarMask(s)), Merge(if op.AddScalar? then Or(DecMask(b1), index) else DecMask(b1)), index, f, m, p);
  }

  lemma NoBit2()
    ensures (0 as Byte) & 0x04 == 0 && (4 as Byte) & 0x04 != 0
  {
  }

  lemma RangeDecodes(op: Operation, i: bv32, dec: Byte)
    requires i < 4 && (op.Range? || op.Modulo?)
    ensures var b0, b1 := OpFirst(op), OpSecond(op, i, dec);
            && DestField(b1) == i && DecInfo(b1) == dec & 0x03
            && Rcu16(b0, b1, 0) == Effect(FirstHandler(op), b1, Widen(i), Keep, Merge(Or(DecMask(b1), RangeIn(b1))), RangeOut(b0, b1))
  {
    hide SecondByte, DestField, DecInfo, DecMask, Widen, IndexMask, Or, Effect, Bit1, Bit2, IsAddrForm, RangeIn, RangeOut, AddrEffects,
         MvrEffects, CountEffects;
    RangeFirsts();
    SecondFields(0, i, 4, dec);
    NoBit2();
  }

  lemma RangeRuns(op: Operation, i: bv32, dec: Byte, f: Fields, m: State, p: Registers)
    requires i < 4 && (op.Range? || op.Modulo?)
    ensures Run(Rcu16(OpFirst(op), OpSecond(op, i, dec), 0), f, m, p) == m.(regs := CountedBy(IndexMeaning(op, i, m.regs, p), dec))
  {
    hide Run, Rcu16, IndexMeaning, CountedBy, FirstByte, SecondByte, DestField, DecInfo, DecMask, Widen, Low32, IndexMask, Or, Effect, RangeIn,
         RangeOut;
    var b1 := OpSecond(op, i, dec);
    RangeDecodes(op, i, dec);
    LowOfWidened(i);
    CountedByBits(IndexMeaning(op, i, m.regs, p), dec);
    OperationRuns(op, i, b1, Widen(i), Keep, Merge(Or(DecMask(b1), RangeIn(b1))), RangeOut(if op.Range? then 0x7A else 0x78, b1), f, m, p);
  }

  /** Running what an encoded register-unit instruction decodes to does its operation and counts the counters that it names. */
  lemma EncodedRuns(op: Operation, i: bv32, dec: Byte, immExt: bv32, f: Fields, m: State, p: Registers)
    requires i < 4 && Encodes(op, immExt)
    ensures Run(Rcu16(OpFirst(op), OpSecond(op, i, dec), immExt), f, m, p) == m.(regs := CountedBy(IndexMeaning(op, i, m.regs, p), dec))
  {
    hide Run, Rcu16, IndexMeaning, CountedBy, OpFirst, OpSecond, OuterBits, FitsShort;
    if op.AddNumber? || op.MoveNumber? {
      NumberRuns(op, i, dec, immExt, f, m, p);
    } else if op.AddScalar? || op.MoveScalar? {
      ScalarRuns(op, i, dec, immExt, f, m, p);
    } else {
      RangeRuns(op, i, dec, f, m, p);
    }
  }

  // ---- The modulo law ----

  lemma IndexAfter(p: Registers, i: bv32)
    requires i < 4
    ensures var x, range := Reg(p, INDEX + i), RangeNumber(p, i);
            var w := ToWord(Signed(x) + Correction(L.Integer(x), range) * 65536);
            L.Integer(w) == L.Integer(x) + Correction(L.Integer(x), range) && FractionPart(w) == FractionPart(x)
  {
    hide Num32, Signed, Reg, ToWord, RangeNumber, RangeOf, Wrapped, FractionPart;
    var x, range := Reg(p, INDEX + i), RangeNumber(p, i);
    RangeIs(p, i);
    WrappedSigned(x, RangeOf(p, i), range);
    SignedToWord(Wrapped(x, RangeOf(p, i)), Signed(x) + Correction(L.Integer(x), range) * 65536);
  }

  lemma NothingCounted(regs: Registers)
    ensures CountedBy(regs, 0) == regs
  {
    hide Counted;
  }

  /** After a modulo of index register i in the range: in it, if the integer part was less than one range away, and in any case
      congruent to what it was. The fraction stays, the flags say where the integer part was, no other register changes. */
  ghost predicate IsBroughtBack(i: bv32, range: int, was: bv32, before: Registers, after: Registers) {
    var n, now := L.Integer(was), Reg(after, INDEX + i);
    && range > 0
    && (0 <= L.Integer(now) < range <==> -range <= n < 2 * range)
    && (-range <= n < 2 * range ==> L.Integer(now) == n % range)
    && L.Integer(now) % range == n % range
    && FractionPart(now) == FractionPart(was)
    && RangeResult(Reg(before, CC), Reg(after, CC), n >= range, n < 0)
    && (forall r :: r != CC && r != INDEX + i ==> Reg(after, r) == Reg(before, r))
  }

  /** Running an encoded modulo does so, for each of the four registers and in every state. */
  lemma ModuloBringsBack(i: bv32, f: Fields, m: State, p: Registers)
    requires i < 4 && RangeNumber(p, i) > 0
    ensures IsBroughtBack(i, RangeNumber(p, i), Reg(p, INDEX + i), m.regs, Run(Rcu16(OpFirst(Modulo), OpSecond(Modulo, i, 0), 0), f, m, p).regs)
  {
    hide Run, Rcu16, OpFirst, OpSecond, RangeNumber, L.Integer, FractionPart, ToWord, Signed, Correction, CountedBy, RangeTested, RangeResult, Reg,
         SetReg;
    var range, was := RangeNumber(p, i), Reg(p, INDEX + i);
    var n := L.Integer(was);
    var flags, now := RangeTested(Reg(m.regs, CC), n, range), ToWord(Signed(was) + Correction(n, range) * 65536);
    var regs := SetReg(SetReg(m.regs, CC, flags), INDEX + i, now);
    EncodedRuns(Modulo, i, 0, 0, f, m, p);
    NothingCounted(regs);
    IndexAfter(p, i);
    ModuloLaw(n, range);
    TestedFlags(Reg(m.regs, CC), n, range);
    FourIndices(i);
    forall r ensures Reg(regs, r) == if r == INDEX + i then now else if r == CC then flags else Reg(m.regs, r) {
      RegAfterSet(m.regs, CC, flags, r);
      RegAfterSet(SetReg(m.regs, CC, flags), INDEX + i, now, r);
    }
  }

  // ---- Counting alone ----

  lemma DecHandlers(dec: Byte)
    requires dec & 0x03 != 0
    ensures IsDecOnly(0xF9, 0x04 | (dec & 0x03)) && DecInfo(0x04 | (dec & 0x03)) == dec & 0x03
    ensures dec & 0x03 == 1 || dec & 0x03 == 2 || dec & 0x03 == 3
  {
  }

  lemma DecInfoIs(info: Byte)
    requires info == 1 || info == 2 || info == 3
    ensures var h: bv64 := if info == 1 then DEC_RC1 else if info == 2 then DEC_RC0 else DEC_BOTH; h - DEC_RC1 + 1 == Widen(Wide(info & 0x03))
  {
  }

  lemma DecRuns(dec: Byte, immExt: bv32, f: Fields, m: State, p: Registers)
    requires dec & 0x03 != 0
    ensures Run(Rcu16(0xF9, 0x04 | (dec & 0x03), immExt), f, m, p) == m.(regs := CountedBy(m.regs, dec))
  {
    var info := dec & 0x03;
    DecHandlers(dec);
    DecInfoIs(info);
    CountedDownIs(m.regs, info);
    CountedByBits(m.regs, dec);
    hide CountedDown, CountedBy, DecInfo, DecMask, InfoField, Or, Widen, Wide, IsDecOnly;
    Settings();
  }
}
