/** What the conditions of branches mean: for the flags of a comparison, how the compared numbers relate. */
module Comparisons {
  import opened ExecuteEcu
  import opened Machine
  import opened Mixing
  import opened SignedWords
  import opened Words
  import opened MulArithmetic
  import opened LaneArithmetic
  import BranchForms

  /** The four flags of a subtraction. */
  function WithFlags(cc: bv32, zero: bool, carry: bool, overflow: bool, negative: bool): bv32 {
    ClearBits(cc,
        0x0F) | (if zero then ZERO else 0) | (if carry then CARRY else 0) | (if overflow then OVERFLOW else 0) | (if negative then NEGATIVE else 0)
  }

  predicate SignBit(x: bv32) { x & 0x80000000 != 0 }
  predicate Overflowed(x: bv32, y: bv32, result: bv32) { (y ^ x) & (x ^ result) & 0x80000000 != 0 }

  /** The flags that comparing x with y leaves: those of x - y, the other flags as they were. The carry is a borrow. */
  function Compared(cc: bv32, x: bv32, y: bv32): bv32 {
    var result := Sub32(x, y);
    WithFlags(cc, result == 0, Num32(x) < Num32(y), Overflowed(x, y, result), SignBit(result))
  }

  // ---- The flags of a subtraction ----

  lemma NothingAdded(y: bv32)
    ensures Add32(0, y) == y && Sub32(y, y) == 0
  {
  }

  lemma SameIfNothingLeft(x: bv32, y: bv32)
    ensures Sub32(x, y) == 0 <==> x == y
  {
    hide Add32, Sub32;
    AddUndone32(x, y);
    NothingAdded(y);
  }

  lemma SignBits(x: bv32, y: bv32, result: bv32)
    ensures Overflowed(x, y, result) <==> SignBit(x) != SignBit(y) && SignBit(x) != SignBit(result)
  {
  }

  /** The signed order is in two of the flags. */
  lemma LessIsTwoFlags(x: bv32, y: bv32)
    ensures var result := Sub32(x, y); Signed(x) < Signed(y) <==> SignBit(result) != Overflowed(x, y, result)
  {
    hide Num32, Sub32, Overflowed;
    var result := Sub32(x, y);
    SignBits(x, y, result);
    SignNum32(x);
    SignNum32(y);
    SignNum32(result);
    SignedRange32(x);
    SignedRange32(y);
    SubIs(x, y, Signed(x), Signed(y));
  }

  /** Overflow is a difference that does not fit. */
  lemma OverflowIsRange(x: bv32, y: bv32)
    ensures Overflowed(x, y, Sub32(x, y)) <==> !Fits32(Signed(x) - Signed(y))
  {
    hide Num32, Sub32, Overflowed;
    var result := Sub32(x, y);
    SignBits(x, y, result);
    SignNum32(x);
    SignNum32(y);
    SignNum32(result);
    SignedRange32(x);
    SignedRange32(y);
    SubIs(x, y, Signed(x), Signed(y));
  }

  // ---- Conditions as formulas over flags ----

  lemma EqualityConditions(cc: bv32, zero: bool, carry: bool, overflow: bool, negative: bool)
    ensures var f := WithFlags(cc, zero, carry, overflow, negative); TestCondition(0x00, f) == !zero && TestCondition(0x04, f) == zero
  {
  }

  lemma CarryConditions(cc: bv32, zero: bool, carry: bool, overflow: bool, negative: bool)
    ensures var f := WithFlags(cc, zero, carry, overflow, negative); TestCondition(0x03, f) == !carry && TestCondition(0x05, f) == carry
  {
  }

  lemma OverflowConditions(cc: bv32, zero: bool, carry: bool, overflow: bool, negative: bool)
    ensures var f := WithFlags(cc, zero, carry, overflow, negative); TestCondition(0x06, f) == !overflow && TestCondition(0x07, f) == overflow
  {
  }

  lemma SignConditions(cc: bv32, zero: bool, carry: bool, overflow: bool, negative: bool)
    ensures var f := WithFlags(cc, zero, carry, overflow, negative); TestCondition(0x0E, f) == !negative && TestCondition(0x0F, f) == negative
  {
  }

  lemma UnsignedConditions(cc: bv32, zero: bool, carry: bool, overflow: bool, negative: bool)
    ensures var f := WithFlags(cc, zero, carry, overflow, negative);
            TestCondition(0x0B, f) == (!carry && !zero) && TestCondition(0x0D, f) == (carry || zero)
  {
  }

  lemma SignedConditions(cc: bv32, zero: bool, carry: bool, overflow: bool, negative: bool)
    ensures var f := WithFlags(cc, zero, carry, overflow, negative);
            && TestCondition(0x08, f) == (negative != overflow) && TestCondition(0x14, f) == (negative == overflow)
            && TestCondition(0x0C, f) == (zero || negative != overflow) && TestCondition(0x10, f) == (!zero && negative == overflow)
  {
  }

  lemma EqualSigned(x: bv32, y: bv32)
    ensures x == y <==> Signed(x) == Signed(y)
  {
    hide Num32, Signed;
    EqualNums(x, y);
    SignedRange32(x);
    SignedRange32(y);
  }

  /** After a comparison of x with y each condition is the relation that it is named for. */
  lemma ConditionsCompare(cc: bv32, x: bv32, y: bv32)
    ensures var f := Compared(cc, x, y);
            && (TestCondition(0x00, f) <==> x != y) && (TestCondition(0x04, f) <==> x == y)
            && (TestCondition(0x08, f) <==> Signed(x) < Signed(y)) && (TestCondition(0x0C, f) <==> Signed(x) <= Signed(y))
            && (TestCondition(0x10, f) <==> Signed(x) > Signed(y)) && (TestCondition(0x14, f) <==> Signed(x) >= Signed(y))
            && (TestCondition(0x0B, f) <==> Num32(x) > Num32(y)) && (TestCondition(0x0D, f) <==> Num32(x) <= Num32(y))
            && (TestCondition(0x03, f) <==> Num32(x) >= Num32(y)) && (TestCondition(0x05, f) <==> Num32(x) < Num32(y))
            && (TestCondition(0x06, f) <==> Fits32(Signed(x) - Signed(y))) && (TestCondition(0x07, f) <==> !Fits32(Signed(x) - Signed(y)))
            && (TestCondition(0x0F, f) <==> SignBit(Sub32(x, y))) && (TestCondition(0x0E, f) <==> !SignBit(Sub32(x, y)))
  {
    hide Num32, Signed, Sub32, WithFlags, TestCondition, Overflowed, SignBit;
    var result := Sub32(x, y);
    var zero, carry, overflow, negative := result == 0, Num32(x) < Num32(y), Overflowed(x, y, result), SignBit(result);
    SameIfNothingLeft(x, y);
    EqualNums(x, y);
    EqualSigned(x, y);
    LessIsTwoFlags(x, y);
    OverflowIsRange(x, y);
    EqualityConditions(cc, zero, carry, overflow, negative);
    CarryConditions(cc, zero, carry, overflow, negative);
    OverflowConditions(cc, zero, carry, overflow, negative);
    SignConditions(cc, zero, carry, overflow, negative);
    UnsignedConditions(cc, zero, carry, overflow, negative);
    SignedConditions(cc, zero, carry, overflow, negative);
  }

  // ---- Conditions on one flag, and opposites ----

  /** The condition holds whenever the flag is set and fails whenever it is clear, whatever the others are. */
  ghost predicate IsFlag(c: bv32, flag: bv32) {
    forall cc :: TestCondition(c, SetBits(cc, flag)) && !TestCondition(c, ClearBits(cc, flag))
  }

  ghost predicate IsNoFlag(c: bv32, flag: bv32) {
    forall cc :: !TestCondition(c, SetBits(cc, flag)) && TestCondition(c, ClearBits(cc, flag))
  }

  lemma CounterFlags(cc: bv32)
    ensures TestCondition(0x01, SetBits(cc, COUNTER0_ZERO)) && !TestCondition(0x01, ClearBits(cc, COUNTER0_ZERO))
    ensures !TestCondition(0x18, SetBits(cc, COUNTER0_ZERO)) && TestCondition(0x18, ClearBits(cc, COUNTER0_ZERO))
    ensures TestCondition(0x02, SetBits(cc, COUNTER1_ZERO)) && !TestCondition(0x02, ClearBits(cc, COUNTER1_ZERO))
    ensures !TestCondition(0x1C, SetBits(cc, COUNTER1_ZERO)) && TestCondition(0x1C, ClearBits(cc, COUNTER1_ZERO))
  {
  }

  lemma ZeroAndCarryFlags(cc: bv32)
    ensures TestCondition(0x04, SetBits(cc, ZERO)) && !TestCondition(0x04, ClearBits(cc, ZERO))
    ensures !TestCondition(0x00, SetBits(cc, ZERO)) && TestCondition(0x00, ClearBits(cc, ZERO))
    ensures TestCondition(0x05, SetBits(cc, CARRY)) && !TestCondition(0x05, ClearBits(cc, CARRY))
    ensures !TestCondition(0x03, SetBits(cc, CARRY)) && TestCondition(0x03, ClearBits(cc, CARRY))
  {
  }

  lemma OverflowAndSignFlags(cc: bv32)
    ensures TestCondition(0x07, SetBits(cc, OVERFLOW)) && !TestCondition(0x07, ClearBits(cc, OVERFLOW))
    ensures !TestCondition(0x06, SetBits(cc, OVERFLOW)) && TestCondition(0x06, ClearBits(cc, OVERFLOW))
    ensures TestCondition(0x0F, SetBits(cc, NEGATIVE)) && !TestCondition(0x0F, ClearBits(cc, NEGATIVE))
    ensures !TestCondition(0x0E, SetBits(cc, NEGATIVE)) && TestCondition(0x0E, ClearBits(cc, NEGATIVE))
  {
  }

  lemma ProductFlags(cc: bv32)
    ensures TestCondition(0x0A, SetBits(cc, MUL_OVERFLOW)) && !TestCondition(0x0A, ClearBits(cc, MUL_OVERFLOW))
    ensures !TestCondition(0x09, SetBits(cc, MUL_OVERFLOW)) && TestCondition(0x09, ClearBits(cc, MUL_OVERFLOW))
    ensures TestCondition(0x12, SetBits(cc, MODMI)) && !TestCondition(0x12, ClearBits(cc, MODMI))
    ensures !TestCondition(0x13, SetBits(cc, MODMI)) && TestCondition(0x13, ClearBits(cc, MODMI))
    ensures TestCondition(0x15, SetBits(cc, MODGE)) && !TestCondition(0x15, ClearBits(cc, MODGE))
    ensures !TestCondition(0x16, SetBits(cc, MODGE)) && TestCondition(0x16, ClearBits(cc, MODGE))
  {
  }

  lemma CoprocessorFlags(cc: bv32)
    ensures TestCondition(0x1D, SetBits(cc, COPROCESSOR0)) && !TestCondition(0x1D, ClearBits(cc, COPROCESSOR0))
    ensures !TestCondition(0x1B, SetBits(cc, COPROCESSOR0)) && TestCondition(0x1B, ClearBits(cc, COPROCESSOR0))
    ensures TestCondition(0x1F, SetBits(cc, COPROCESSOR1)) && !TestCondition(0x1F, ClearBits(cc, COPROCESSOR1))
    ensures !TestCondition(0x1E, SetBits(cc, COPROCESSOR1)) && TestCondition(0x1E, ClearBits(cc, COPROCESSOR1))
  {
  }

  lemma FlagConditions()
    ensures IsFlag(0x01, COUNTER0_ZERO) && IsNoFlag(0x18, COUNTER0_ZERO) && IsFlag(0x02, COUNTER1_ZERO) && IsNoFlag(0x1C, COUNTER1_ZERO)
    ensures IsFlag(0x04, ZERO) && IsNoFlag(0x00, ZERO) && IsFlag(0x05, CARRY) && IsNoFlag(0x03, CARRY)
    ensures IsFlag(0x07, OVERFLOW) && IsNoFlag(0x06, OVERFLOW) && IsFlag(0x0F, NEGATIVE) && IsNoFlag(0x0E, NEGATIVE)
    ensures IsFlag(0x0A, MUL_OVERFLOW) && IsNoFlag(0x09, MUL_OVERFLOW) && IsFlag(0x12, MODMI) && IsNoFlag(0x13, MODMI)
    ensures IsFlag(0x15, MODGE) && IsNoFlag(0x16, MODGE) && IsFlag(0x1D, COPROCESSOR0) && IsNoFlag(0x1B, COPROCESSOR0)
    ensures IsFlag(0x1F, COPROCESSOR1) && IsNoFlag(0x1E, COPROCESSOR1)
  {
    hide TestCondition, SetBits, ClearBits;
    forall cc: bv32
      ensures TestCondition(0x01, SetBits(cc, COUNTER0_ZERO)) && !TestCondition(0x01, ClearBits(cc, COUNTER0_ZERO))
      ensures !TestCondition(0x18, SetBits(cc, COUNTER0_ZERO)) && TestCondition(0x18, ClearBits(cc, COUNTER0_ZERO))
      ensures TestCondition(0x02, SetBits(cc, COUNTER1_ZERO)) && !TestCondition(0x02, ClearBits(cc, COUNTER1_ZERO))
      ensures !TestCondition(0x1C, SetBits(cc, COUNTER1_ZERO)) && TestCondition(0x1C, ClearBits(cc, COUNTER1_ZERO))
      ensures TestCondition(0x04, SetBits(cc, ZERO)) && !TestCondition(0x04, ClearBits(cc, ZERO))
      ensures !TestCondition(0x00, SetBits(cc, ZERO)) && TestCondition(0x00, ClearBits(cc, ZERO))
      ensures TestCondition(0x05, SetBits(cc, CARRY)) && !TestCondition(0x05, ClearBits(cc, CARRY))
      ensures !TestCondition(0x03, SetBits(cc, CARRY)) && TestCondition(0x03, ClearBits(cc, CARRY))
      ensures TestCondition(0x07, SetBits(cc, OVERFLOW)) && !TestCondition(0x07, ClearBits(cc, OVERFLOW))
      ensures !TestCondition(0x06, SetBits(cc, OVERFLOW)) && TestCondition(0x06, ClearBits(cc, OVERFLOW))
      ensures TestCondition(0x0F, SetBits(cc, NEGATIVE)) && !TestCondition(0x0F, ClearBits(cc, NEGATIVE))
      ensures !TestCondition(0x0E, SetBits(cc, NEGATIVE)) && TestCondition(0x0E, ClearBits(cc, NEGATIVE))
      ensures TestCondition(0x0A, SetBits(cc, MUL_OVERFLOW)) && !TestCondition(0x0A, ClearBits(cc, MUL_OVERFLOW))
      ensures !TestCondition(0x09, SetBits(cc, MUL_OVERFLOW)) && TestCondition(0x09, ClearBits(cc, MUL_OVERFLOW))
      ensures TestCondition(0x12, SetBits(cc, MODMI)) && !TestCondition(0x12, ClearBits(cc, MODMI))
      ensures !TestCondition(0x13, SetBits(cc, MODMI)) && TestCondition(0x13, ClearBits(cc, MODMI))
      ensures TestCondition(0x15, SetBits(cc, MODGE)) && !TestCondition(0x15, ClearBits(cc, MODGE))
      ensures !TestCondition(0x16, SetBits(cc, MODGE)) && TestCondition(0x16, ClearBits(cc, MODGE))
      ensures TestCondition(0x1D, SetBits(cc, COPROCESSOR0)) && !TestCondition(0x1D, ClearBits(cc, COPROCESSOR0))
      ensures !TestCondition(0x1B, SetBits(cc, COPROCESSOR0)) && TestCondition(0x1B, ClearBits(cc, COPROCESSOR0))
      ensures TestCondition(0x1F, SetBits(cc, COPROCESSOR1)) && !TestCondition(0x1F, ClearBits(cc, COPROCESSOR1))
      ensures !TestCondition(0x1E, SetBits(cc, COPROCESSOR1)) && TestCondition(0x1E, ClearBits(cc, COPROCESSOR1))
    {
      CounterFlags(cc);
      ZeroAndCarryFlags(cc);
      OverflowAndSignFlags(cc);
      ProductFlags(cc);
      CoprocessorFlags(cc);
    }
  }

  /** The condition that holds just when another fails; the three numbers not in use are the opposite of always. */
  function Opposite(c: bv32): bv32 {
    if c == 0x00 then 0x04 else if c == 0x01 then 0x18 else if c == 0x02 then 0x1C else if c == 0x03 then 0x05
    else if c == 0x06 then 0x07 else if c == 0x08 then 0x14 else if c == 0x09 then 0x0A else if c == 0x0B then 0x0D
    else if c == 0x0C then 0x10 else if c == 0x0E then 0x0F else if c == 0x11 then 0x17 else if c == 0x12 then 0x13
    else if c == 0x15 then 0x16 else if c == 0x1B then 0x1D else 0x1F
  }

  predicate HasOpposite(c: bv32) {
    c <= 0x03 || c == 0x06 || c == 0x08 || c == 0x09 || c == 0x0B || c == 0x0C || c == 0x0E || c == 0x11 || c == 0x12 || c == 0x15
    || c == 0x1B || c == 0x1E
  }

  lemma LowerOpposites(c: bv32, cc: bv32)
    requires HasOpposite(c) && c < 0x08
    ensures TestCondition(Opposite(c), cc) <==> !TestCondition(c, cc)
  {
  }

  lemma MiddleOpposites(c: bv32, cc: bv32)
    requires HasOpposite(c) && 0x08 <= c < 0x10
    ensures TestCondition(Opposite(c), cc) <==> !TestCondition(c, cc)
  {
  }

  lemma UpperOpposites(c: bv32, cc: bv32)
    requires HasOpposite(c) && c >= 0x10
    ensures TestCondition(Opposite(c), cc) <==> !TestCondition(c, cc)
  {
  }

  lemma Opposites(c: bv32, cc: bv32)
    requires HasOpposite(c)
    ensures TestCondition(Opposite(c), cc) <==> !TestCondition(c, cc)
  {
    hide TestCondition, HasOpposite, Opposite;
    if c < 0x08 {
      LowerOpposites(c, cc);
    } else if c < 0x10 {
      MiddleOpposites(c, cc);
    } else {
      UpperOpposites(c, cc);
    }
  }

  lemma AlwaysAndNever(cc: bv32)
    ensures TestCondition(0x11, cc) && !TestCondition(0x17, cc) && !TestCondition(0x19, cc) && !TestCondition(0x1A, cc)
  {
  }

  // ---- Branches after a comparison ----

  predicate Relational(c: bv32) { c == 0x00 || c == 0x04 || c == 0x08 || c == 0x0B || c == 0x0C || c == 0x0D || c == 0x10 || c == 0x14 }

  /** How the compared numbers relate when the condition holds: ne, eq, lt, le, gt and ge of signed numbers, hi and ls of unsigned ones. */
  predicate Related(c: bv32, x: bv32, y: bv32) {
    if c == 0x00 then x != y
    else if c == 0x04 then x == y
    else if c == 0x08 then Signed(x) < Signed(y)
    else if c == 0x0C then Signed(x) <= Signed(y)
    else if c == 0x10 then Signed(x) > Signed(y)
    else if c == 0x14 then Signed(x) >= Signed(y)
    else if c == 0x0B then Num32(x) > Num32(y)
    else Num32(x) <= Num32(y)
  }

  lemma RelationTested(c: bv32, cc: bv32, x: bv32, y: bv32)
    requires Relational(c)
    ensures c < 32 && (TestCondition(c, Compared(cc, x, y)) <==> Related(c, x, y))
  {
    hide TestCondition, Compared, Num32, Signed;
    ConditionsCompare(cc, x, y);
  }

  /** A conditional branch that tests the flags of a comparison goes to its target if and only if the numbers relate as it says. */
  lemma BranchesAfterComparison(c: bv32, nop: bool, offset: bv32, pc: bv32, f: Fields, m: State, p: Registers, cc: bv32, x: bv32, y: bv32)
    requires Relational(c)
    ensures BranchForms.Run(BranchForms.Branch48(c, nop, offset, pc), f, m, p, Compared(cc, x, y))
            == if m.ecuSkipCounter == 0 && Related(c, x, y)
               then m.(pcfetchnext := BranchForms.Target(pc, offset), ecuSkipCounter := if nop then 1 else 3) else m
  {
    hide BranchForms.Run, BranchForms.Branch16, BranchForms.Branch32, BranchForms.Branch48, BranchForms.BranchAlways16, BranchForms.Target,
         BranchForms.FitsShort, BranchForms.FitsMedium, BranchForms.FitsAlways, TestCondition, Compared, Related, Relational;
    RelationTested(c, cc, x, y);
    BranchForms.FormsExecuteAlike(c, nop, offset, pc, f, m, p, Compared(cc, x, y));
  }
}
