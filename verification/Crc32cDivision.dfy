/** What the CRC register means: the remainder of dividing polynomials over GF(2). */
module Crc32cDivision {
  import opened Crc32c
  import opened Mixing
  import opened Words

  /** A polynomial over GF(2) as the set of its exponents. */
  type Polynomial = set<nat>

  function Plus(p: Polynomial, q: Polynomial): Polynomial { (p - q) + (q - p) }
  function TimesX(p: Polynomial): Polynomial { set e | e in p :: e + 1 }
  function If(bit: bool, p: Polynomial): Polynomial { if bit then p else {} }

  /** A product, the coefficients of one factor given with the highest first. */
  function Times(q: seq<bool>, p: Polynomial): Polynomial
    decreases |q|
  {
    if q == [] then {} else Plus(TimesX(Times(q[..|q| - 1], p)), If(q[|q| - 1], p))
  }

  ghost predicate Below(p: Polynomial, bound: nat) { forall e :: e in p ==> e < bound }

  /** The generator of section 12.1 of RFC 3720. */
  const GENERATOR_POLYNOMIAL: Polynomial :=
    {32, 28, 27, 26, 25, 23, 22, 20, 19, 18, 14, 13, 11, 10, 9, 8, 6, 0}

  // ---- The register as a polynomial: its lowest bit has the highest exponent ----

  function Down(v: bv32, n: nat): bv32
    decreases n
  {
    if n == 0 then v else Down(ShiftRight1(v), n - 1)
  }

  predicate Bit(v: bv32, n: nat) { Bit0(Down(v, n)) == 1 }

  function RegisterPolynomial(crc: bv32): Polynomial {
    set e: nat | e < 32 && Coefficient(crc, e)
  }

  predicate Coefficient(crc: bv32, e: nat)
    requires e < 32
  {
    Bit(crc, 31 - e)
  }

  /** The first bit of a message has the highest exponent, the last one x^32. */
  function MessagePolynomial(bits: seq<bool>): Polynomial {
    set e: nat {:trigger MessageBit(bits, e)} | e < 32 + |bits| && MessageBit(bits, e)
  }

  predicate MessageBit(bits: seq<bool>, e: nat) {
    32 <= e < 32 + |bits| && bits[31 + |bits| - e]
  }

  function TimesPower(p: Polynomial, n: nat): Polynomial { set e | e in p :: e + n }

  /** What is divided: the register before the message and then the message. */
  function Dividend(crc: bv32, bits: seq<bool>): Polynomial {
    Plus(TimesPower(RegisterPolynomial(crc), |bits|), MessagePolynomial(bits))
  }

  /** The division with quotient q leaves r. */
  ghost predicate Divides(crc: bv32, bits: seq<bool>, q: seq<bool>, r: Polynomial) {
    |q| == |bits| && Dividend(crc, bits) == Plus(Times(q, GENERATOR_POLYNOMIAL), r)
  }

  // ---- The shifts ----

  lemma FourShifts(v: bv32)
    ensures ShiftRight1(ShiftRight1(ShiftRight1(ShiftRight1(v)))) == ShiftRight4(v)
  {
  }

  lemma Down4(v: bv32, n: nat)
    requires n >= 4
    ensures Down(v, n) == Down(ShiftRight4(v), n - 4)
  {
    hide ShiftRight1, ShiftRight4;
    FourShifts(v);
    var w := ShiftRight1(v);
    assert Down(v, n) == Down(w, n - 1) == Down(ShiftRight1(w), n - 2) == Down(ShiftRight1(ShiftRight1(w)), n - 3);
  }

  function ShiftRight16(v: bv32): bv32 { ShiftRight4(ShiftRight4(ShiftRight4(ShiftRight4(v)))) }

  lemma Down16(v: bv32, n: nat)
    requires n >= 16
    ensures Down(v, n) == Down(ShiftRight16(v), n - 16)
  {
    hide Down, ShiftRight4;
    Down4(v, n);
    Down4(ShiftRight4(v), n - 4);
    Down4(ShiftRight4(ShiftRight4(v)), n - 8);
    Down4(ShiftRight4(ShiftRight4(ShiftRight4(v))), n - 12);
  }

  lemma NothingLeft(v: bv32)
    ensures Bit0(ShiftRight16(ShiftRight16(v))) == 0
  {
  }

  lemma NoBit32(v: bv32)
    ensures !Bit(v, 32)
  {
    hide ShiftRight16, Bit0;
    Down16(v, 32);
    Down16(ShiftRight16(v), 16);
    NothingLeft(v);
  }

  lemma XorShifts(x: bv32, y: bv32)
    ensures ShiftRight1(Xor32(x, y)) == Xor32(ShiftRight1(x), ShiftRight1(y))
  {
  }

  lemma XorLowest(x: bv32, y: bv32)
    ensures (Bit0(Xor32(x, y)) == 1) == ((Bit0(x) == 1) != (Bit0(y) == 1))
  {
  }

  /** Xor is addition, coefficient by coefficient. */
  lemma {:induction false} XorBits(x: bv32, y: bv32, n: nat)
    ensures Bit(Xor32(x, y), n) == (Bit(x, n) != Bit(y, n))
    decreases n
  {
    hide Xor32, ShiftRight1, Bit0;
    if n == 0 {
      XorLowest(x, y);
    } else {
      XorShifts(x, y);
      XorBits(ShiftRight1(x), ShiftRight1(y), n - 1);
    }
  }

  const REFLECTED: bv32 := 0x82F63B78

  function ToAdd(odd: bool): bv32 { if odd then REFLECTED else 0 }

  lemma StepShiftsAndAdds(crc: bv32)
    ensures Step(crc) == Xor32(ShiftRight1(crc), ToAdd(Bit0(crc) == 1))
  {
    hide Step, Xor32;
    StepDefinition(crc);
    XorNothing(ShiftRight1(crc));
  }

  lemma {:induction false} ZeroHasNoBits(n: nat)
    ensures !Bit(0, n)
    decreases n
  {
    if n > 0 { ZeroHasNoBits(n - 1); }
  }

  lemma StepBits(crc: bv32, n: nat)
    ensures Bit(Step(crc), n) == (Bit(crc, n + 1) != (Bit(crc, 0) && Bit(REFLECTED, n)))
  {
    hide Step, Xor32, ShiftRight1, Bit0;
    StepShiftsAndAdds(crc);
    XorBits(ShiftRight1(crc), ToAdd(Bit0(crc) == 1), n);
    ZeroHasNoBits(n);
  }

  lemma LowestFour(v: bv32)
    ensures Bit0(v) == 1 <==> LowByte32(v) & 1 != 0
    ensures Bit0(ShiftRight1(v)) == 1 <==> LowByte32(v) & 2 != 0
    ensures Bit0(ShiftRight1(ShiftRight1(v))) == 1 <==> LowByte32(v) & 4 != 0
    ensures Bit0(ShiftRight1(ShiftRight1(ShiftRight1(v)))) == 1 <==> LowByte32(v) & 8 != 0
  {
  }

  function LowBits(v: bv32): (bits: seq<bool>)
    ensures |bits| == 8
  {
    ByteBits(LowByte32(v))
  }

  lemma LowerHalf(v: bv32, n: nat)
    requires n < 4
    ensures LowBits(v)[n] == Bit(v, n)
  {
    hide Bit0, ShiftRight1, LowByte32;
    LowestFour(v);
    var w := ShiftRight1(v);
    assert Down(w, 0) == w && Down(w, 1) == ShiftRight1(w) && Down(w, 2) == ShiftRight1(ShiftRight1(w));
  }

  lemma FourDownMasked(v: bv32)
    ensures LowByte32(ShiftRight4(v)) & 1 != 0 <==> LowByte32(v) & 16 != 0
    ensures LowByte32(ShiftRight4(v)) & 2 != 0 <==> LowByte32(v) & 32 != 0
    ensures LowByte32(ShiftRight4(v)) & 4 != 0 <==> LowByte32(v) & 64 != 0
    ensures LowByte32(ShiftRight4(v)) & 8 != 0 <==> LowByte32(v) & 128 != 0
  {
  }

  lemma UpperBits(c: Byte)
    ensures ByteBits(c)[4] == (c & 16 != 0) && ByteBits(c)[5] == (c & 32 != 0)
    ensures ByteBits(c)[6] == (c & 64 != 0) && ByteBits(c)[7] == (c & 128 != 0)
    ensures ByteBits(c)[0] == (c & 1 != 0) && ByteBits(c)[1] == (c & 2 != 0)
    ensures ByteBits(c)[2] == (c & 4 != 0) && ByteBits(c)[3] == (c & 8 != 0)
  {
  }

  lemma FourDown(v: bv32)
    ensures var (l, h) := (LowBits(v), LowBits(ShiftRight4(v))); h[0] == l[4] && h[1] == l[5] && h[2] == l[6] && h[3] == l[7]
  {
    hide LowByte32, ShiftRight4, ByteBits;
    FourDownMasked(v);
    UpperBits(LowByte32(v));
    UpperBits(LowByte32(ShiftRight4(v)));
  }

  lemma BitInLowByte(v: bv32, n: nat)
    requires n < 8
    ensures LowBits(v)[n] == Bit(v, n)
  {
    hide Bit0, Down, LowBits, ShiftRight4;
    if n < 4 {
      LowerHalf(v, n);
    } else {
      Down4(v, n);
      LowerHalf(ShiftRight4(v), n - 4);
      FourDown(v);
    }
  }
  lemma EightShifts(v: bv32)
    ensures ShiftRight4(ShiftRight4(v)) == ShiftRight8(v)
  {
  }

  lemma Down8(v: bv32, n: nat)
    requires n >= 8
    ensures Down(v, n) == Down(ShiftRight8(v), n - 8)
  {
    hide Down, ShiftRight4, ShiftRight8;
    EightShifts(v);
    Down4(v, n);
    Down4(ShiftRight4(v), n - 4);
  }

  lemma BytesOfReflected()
    ensures ShiftRight8(REFLECTED) == 0x82F63B && ShiftRight8(0x82F63B) == 0x82F6 && ShiftRight8(0x82F6) == 0x82
    ensures LowBits(REFLECTED) == [false, false, false, true, true, true, true, false]
    ensures LowBits(0x82F63B) == [true, true, false, true, true, true, false, false]
    ensures LowBits(0x82F6) == [false, true, true, false, true, true, true, true]
    ensures LowBits(0x82) == [false, true, false, false, false, false, false, true]
  {
  }

  /** The constant in the step is the generator without its leading term. */
  lemma GeneratorIsReflected(e: nat)
    requires e < 32
    ensures e in GENERATOR_POLYNOMIAL <==> Bit(REFLECTED, 31 - e)
  {
    hide Bit0, Down, LowBits, ShiftRight8;
    BytesOfReflected();
    var n := 31 - e;
    if n < 8 {
      BitInLowByte(REFLECTED, n);
    } else {
      Down8(REFLECTED, n);
      if n < 16 {
        BitInLowByte(0x82F63B, n - 8);
      } else {
        Down8(0x82F63B, n - 8);
        if n < 24 {
          BitInLowByte(0x82F6, n - 16);
        } else {
          Down8(0x82F6, n - 16);
          BitInLowByte(0x82, n - 24);
        }
      }
    }
  }

  // ---- Addition and multiplication ----

  lemma PlusMember(p: Polynomial, q: Polynomial, e: nat)
    ensures e in Plus(p, q) <==> (e in p) != (e in q)
  {
  }

  lemma TimesXMember(p: Polynomial, e: nat)
    ensures e in TimesX(p) <==> e > 0 && e - 1 in p
  {
  }

  lemma PlusExchange(a: Polynomial, b: Polynomial, c: Polynomial, d: Polynomial)
    ensures Plus(Plus(a, b), Plus(c, d)) == Plus(Plus(a, c), Plus(b, d))
  {
  }

  lemma PlusAssociates(a: Polynomial, b: Polynomial, c: Polynomial)
    ensures Plus(Plus(a, b), c) == Plus(a, Plus(b, c))
  {
  }

  lemma TimesXPlus(p: Polynomial, q: Polynomial)
    ensures TimesX(Plus(p, q)) == Plus(TimesX(p), TimesX(q))
  {
    hide TimesX, Plus;
    forall e: nat ensures e in TimesX(Plus(p, q)) <==> e in Plus(TimesX(p), TimesX(q)) {
      PlusMember(TimesX(p), TimesX(q), e);
      TimesXMember(Plus(p, q), e);
      TimesXMember(p, e);
      TimesXMember(q, e);
      if e > 0 { PlusMember(p, q, e - 1); }
    }
  }

  // ---- One step of the register is one step of the long division ----

  lemma RegisterMember(crc: bv32, e: nat)
    ensures e in RegisterPolynomial(crc) <==> e < 32 && Bit(crc, 31 - e)
  {
  }

  /** Multiply by x and take the generator off when the leading term calls for it. */
  lemma StepDivides(crc: bv32)
    ensures TimesX(RegisterPolynomial(crc)) == Plus(If(Bit(crc, 0), GENERATOR_POLYNOMIAL), RegisterPolynomial(Step(crc)))
  {
    hide RegisterPolynomial, TimesX, Plus, Bit, Step;
    forall e: nat
      ensures e in TimesX(RegisterPolynomial(crc))
              <==> e in Plus(If(Bit(crc, 0), GENERATOR_POLYNOMIAL), RegisterPolynomial(Step(crc)))
    {
      PlusMember(If(Bit(crc, 0), GENERATOR_POLYNOMIAL), RegisterPolynomial(Step(crc)), e);
      TimesXMember(RegisterPolynomial(crc), e);
      RegisterMember(Step(crc), e);
      if e > 0 { RegisterMember(crc, e - 1); }
      if e < 32 {
        GeneratorIsReflected(e);
        StepBits(crc, 31 - e);
        if e == 0 { NoBit32(crc); }
      }
    }
  }

  lemma {:induction false} OneHasOneBit(n: nat)
    ensures Bit(1, n) <==> n == 0
  {
    if n > 0 { ZeroHasNoBits(n - 1); }
  }

  function Input(bit: bool): bv32 { if bit then 1 else 0 }

  /** A bit that comes in is added at x^31. */
  lemma InputAdds(crc: bv32, bit: bool)
    ensures RegisterPolynomial(Xor32(crc, Input(bit))) == Plus(RegisterPolynomial(crc), If(bit, {31}))
  {
    hide RegisterPolynomial, Plus, Bit, Xor32;
    forall e: nat
      ensures e in RegisterPolynomial(Xor32(crc, Input(bit))) <==> e in Plus(RegisterPolynomial(crc), If(bit, {31}))
    {
      PlusMember(RegisterPolynomial(crc), If(bit, {31}), e);
      RegisterMember(Xor32(crc, Input(bit)), e);
      RegisterMember(crc, e);
      if e < 32 {
        XorBits(crc, Input(bit), 31 - e);
        ZeroHasNoBits(31 - e);
        OneHasOneBit(31 - e);
      }
    }
  }

  lemma FeedIsInputAndStep(crc: bv32, bit: bool)
    ensures FeedBit(crc, bit) == Step(Xor32(crc, Input(bit)))
  {
    hide Step, Xor32;
    FeedDefinition(crc, bit);
  }

  // ---- One more bit of the message ----

  lemma TimesPowerMember(p: Polynomial, n: nat, e: nat)
    ensures e in TimesPower(p, n) <==> e >= n && e - n in p
  {
  }

  lemma MessageMember(bits: seq<bool>, e: nat)
    ensures e in MessagePolynomial(bits) <==> MessageBit(bits, e)
  {
  }

  lemma DividendOfNothing(crc: bv32)
    ensures Dividend(crc, []) == RegisterPolynomial(crc)
  {
    hide RegisterPolynomial, MessagePolynomial, TimesPower;
    forall e: nat ensures e in Dividend(crc, []) <==> e in RegisterPolynomial(crc) {
      TimesPowerMember(RegisterPolynomial(crc), 0, e);
      MessageMember([], e);
    }
  }

  lemma DividendGrows(crc: bv32, bits: seq<bool>, bit: bool)
    ensures Dividend(crc, bits + [bit]) == TimesX(Plus(Dividend(crc, bits), If(bit, {31})))
  {
    hide RegisterPolynomial, MessagePolynomial, TimesPower, TimesX, Plus;
    var (r, all, n) := (RegisterPolynomial(crc), bits + [bit], |bits|);
    forall e: nat ensures e in Dividend(crc, all) <==> e in TimesX(Plus(Dividend(crc, bits), If(bit, {31}))) {
      PlusMember(TimesPower(r, n + 1), MessagePolynomial(all), e);
      TimesPowerMember(r, n + 1, e);
      MessageMember(all, e);
      TimesXMember(Plus(Dividend(crc, bits), If(bit, {31})), e);
      if e > 0 {
        PlusMember(Dividend(crc, bits), If(bit, {31}), e - 1);
        PlusMember(TimesPower(r, n), MessagePolynomial(bits), e - 1);
        TimesPowerMember(r, n, e - 1);
        MessageMember(bits, e - 1);
      }
    }
  }

  lemma TimesGrows(q: seq<bool>, bit: bool, p: Polynomial)
    ensures Times(q + [bit], p) == Plus(TimesX(Times(q, p)), If(bit, p))
  {
    hide Plus, TimesX;
    assert (q + [bit])[..|q|] == q;
  }

  lemma StepOfDivision(dividend: Polynomial, product: Polynomial, crc: bv32, bit: bool)
    requires dividend == Plus(product, RegisterPolynomial(crc))
    ensures TimesX(Plus(dividend, If(bit, {31})))
            == Plus(Plus(TimesX(product), If(Bit(Xor32(crc, Input(bit)), 0), GENERATOR_POLYNOMIAL)),
                    RegisterPolynomial(FeedBit(crc, bit)))
  {
    hide RegisterPolynomial, Plus, TimesX, Bit, Xor32, FeedBit, Step, If;
    var fed := Xor32(crc, Input(bit));
    PlusAssociates(product, RegisterPolynomial(crc), If(bit, {31}));
    InputAdds(crc, bit);
    TimesXPlus(product, RegisterPolynomial(fed));
    StepDivides(fed);
    FeedIsInputAndStep(crc, bit);
    PlusAssociates(TimesX(product), If(Bit(fed, 0), GENERATOR_POLYNOMIAL), RegisterPolynomial(Step(fed)));
  }

  lemma SerialGrows(crc: bv32, bits: seq<bool>, bit: bool)
    ensures Serial(crc, bits + [bit]) == FeedBit(Serial(crc, bits), bit)
  {
    hide FeedBit;
    SerialConcat(crc, bits, [bit]);
    SerialEnd(FeedBit(Serial(crc, bits), bit));
    assert [bit][1..] == [];
  }

  /** The long division that feeding a message bit by bit performs. */
  lemma {:induction false} FeedingDivides(crc: bv32, bits: seq<bool>) returns (q: seq<bool>)
    ensures Divides(crc, bits, q, RegisterPolynomial(Serial(crc, bits)))
    decreases |bits|
  {
    hide RegisterPolynomial, Plus, TimesX, Bit, Xor32, FeedBit, Dividend, Serial;
    if bits == [] {
      q := [];
      DividendOfNothing(crc);
      SerialEnd(crc);
      PlusNothing(RegisterPolynomial(crc));
    } else {
      var front, bit := bits[..|bits| - 1], bits[|bits| - 1];
      assert bits == front + [bit];
      var q' := FeedingDivides(crc, front);
      var reg := Serial(crc, front);
      var lead := Bit(Xor32(reg, Input(bit)), 0);
      q := q' + [lead];
      DividendGrows(crc, front, bit);
      StepOfDivision(Dividend(crc, front), Times(q', GENERATOR_POLYNOMIAL), reg, bit);
      TimesGrows(q', lead, GENERATOR_POLYNOMIAL);
      SerialGrows(crc, front, bit);
    }
  }

  lemma PlusNothing(p: Polynomial)
    ensures Plus({}, p) == p && Plus(p, {}) == p && Plus(p, p) == {}
  {
  }

  // ---- There is only one remainder ----

  ghost predicate AllFalse(q: seq<bool>) { forall i :: 0 <= i < |q| ==> !q[i] }

  ghost predicate HasTop(p: Polynomial, top: nat) { top in p && Below(p, top + 1) }

  ghost predicate HighDegree(p: Polynomial) { exists top: nat :: top >= 32 && HasTop(p, top) }

  /** A multiple of the generator is nothing at all or has degree 32 or more. */
  lemma {:induction false} DegreeOfMultiple(q: seq<bool>)
    ensures var p := Times(q, GENERATOR_POLYNOMIAL);
            if AllFalse(q) then p == {} else HighDegree(p)
    decreases |q|
  {
    hide Plus, TimesX, HasTop;
    if q != [] {
      var front, bit := q[..|q| - 1], q[|q| - 1];
      DegreeOfMultiple(front);
      var p, p' := Times(q, GENERATOR_POLYNOMIAL), Times(front, GENERATOR_POLYNOMIAL);
      if AllFalse(front) {
        TopOfGenerator(bit);
        assert AllFalse(q) == !bit;
        assert bit ==> HasTop(p, 32) && HighDegree(p);
      } else {
        TopGrows(p', bit);
        assert !AllFalse(q) by {
          var i :| 0 <= i < |front| && front[i];
          assert q[i];
        }
      }
    }
  }

  lemma TopOfGenerator(bit: bool)
    ensures Plus(TimesX({}), If(bit, GENERATOR_POLYNOMIAL)) == If(bit, GENERATOR_POLYNOMIAL)
    ensures HasTop(GENERATOR_POLYNOMIAL, 32)
  {
  }

  lemma TopShifts(p: Polynomial, top: nat)
    requires HasTop(p, top)
    ensures HasTop(TimesX(p), top + 1)
  {
  }

  lemma TopStays(p: Polynomial, q: Polynomial, top: nat)
    requires HasTop(p, top) && Below(q, top)
    ensures HasTop(Plus(p, q), top)
  {
  }

  lemma TopGrows(p: Polynomial, bit: bool)
    requires HighDegree(p)
    ensures HighDegree(Plus(TimesX(p), If(bit, GENERATOR_POLYNOMIAL)))
  {
    hide Plus, TimesX;
    var top: nat :| top >= 32 && HasTop(p, top);
    TopOfGenerator(bit);
    TopShifts(p, top);
    TopStays(TimesX(p), If(bit, GENERATOR_POLYNOMIAL), top + 1);
  }

  function Added(q: seq<bool>, q': seq<bool>): seq<bool>
    requires |q| == |q'|
  {
    seq(|q|, i requires 0 <= i < |q| => q[i] != q'[i])
  }

  lemma IfPlus(b: bool, c: bool, p: Polynomial)
    ensures Plus(If(b, p), If(c, p)) == If(b != c, p)
  {
  }

  lemma {:induction false} TimesPlus(q: seq<bool>, q': seq<bool>, p: Polynomial)
    requires |q| == |q'|
    ensures Plus(Times(q, p), Times(q', p)) == Times(Added(q, q'), p)
    decreases |q|
  {
    hide Plus, TimesX, If;
    if q == [] {
      PlusNothing({});
    } else {
      var n := |q| - 1;
      TimesPlus(q[..n], q'[..n], p);
      assert Added(q, q')[..n] == Added(q[..n], q'[..n]);
      var (a, b) := (Times(q[..n], p), Times(q'[..n], p));
      PlusExchange(TimesX(a), If(q[n], p), TimesX(b), If(q'[n], p));
      TimesXPlus(a, b);
      IfPlus(q[n], q'[n], p);
    }
  }

  lemma OneRemainder(q: seq<bool>, q': seq<bool>, r: Polynomial, r': Polynomial)
    requires |q| == |q'| && Below(r, 32) && Below(r', 32)
    requires Plus(Times(q, GENERATOR_POLYNOMIAL), r) == Plus(Times(q', GENERATOR_POLYNOMIAL), r')
    ensures r == r'
  {
    hide Times, Added;
    var (a, b) := (Times(q, GENERATOR_POLYNOMIAL), Times(q', GENERATOR_POLYNOMIAL));
    TimesPlus(q, q', GENERATOR_POLYNOMIAL);
    DegreeOfMultiple(Added(q, q'));
    SumsAgree(a, b, r, r');
    LowSum(r, r');
    NoHighTop(Plus(r, r'));
  }

  lemma NoHighTop(p: Polynomial)
    requires Below(p, 32)
    ensures !HighDegree(p)
  {
  }

  lemma SumsAgree(a: Polynomial, b: Polynomial, r: Polynomial, r': Polynomial)
    requires Plus(a, r) == Plus(b, r')
    ensures Plus(a, b) == Plus(r, r')
  {
    hide Plus;
    forall e: nat ensures e in Plus(a, b) <==> e in Plus(r, r') {
      PlusMember(a, b, e);
      PlusMember(r, r', e);
      PlusMember(a, r, e);
      PlusMember(b, r', e);
    }
  }

  lemma LowSum(r: Polynomial, r': Polynomial)
    requires Below(r, 32) && Below(r', 32)
    ensures Below(Plus(r, r'), 32) && (Plus(r, r') == {} ==> r == r')
  {
    if Plus(r, r') == {} {
      forall e: nat ensures e in r <==> e in r' { PlusMember(r, r', e); }
    }
  }

  // ---- Different registers are different polynomials ----

  lemma NoneOfEight(v: bv32)
    requires LowBits(v) == seq(8, _ => false)
    ensures LowByte32(v) == 0
  {
    hide LowByte32;
    var bits := LowBits(v);
    assert !bits[0] && !bits[1] && !bits[2] && !bits[3] && !bits[4] && !bits[5] && !bits[6] && !bits[7];
    NoneOfByte(LowByte32(v));
  }

  lemma NoneOfByte(b: Byte)
    requires b & 1 == 0 && b & 2 == 0 && b & 4 == 0 && b & 8 == 0
    requires b & 16 == 0 && b & 32 == 0 && b & 64 == 0 && b & 128 == 0
    ensures b == 0
  {
  }

  lemma NothingIsZero(v: bv32)
    requires LowByte32(v) == 0 && LowByte32(ShiftRight8(v)) == 0
    requires LowByte32(ShiftRight8(ShiftRight8(v))) == 0 && LowByte32(ShiftRight8(ShiftRight8(ShiftRight8(v)))) == 0
    ensures v == 0
  {
  }

  lemma ByteWithoutBits(v: bv32)
    requires forall n: nat :: n < 8 ==> !Bit(v, n)
    ensures LowByte32(v) == 0
  {
    hide Bit, LowByte32;
    forall n: nat | n < 8 ensures !LowBits(v)[n] { BitInLowByte(v, n); }
    NoneOfEight(v);
  }

  lemma WithoutBits(v: bv32)
    requires forall n: nat :: n < 32 ==> !Bit(v, n)
    ensures v == 0
  {
    hide Down, Bit0, LowByte32, ShiftRight8;
    var (v1, v2, v3) := (ShiftRight8(v), ShiftRight8(ShiftRight8(v)), ShiftRight8(ShiftRight8(ShiftRight8(v))));
    forall n: nat | n < 24 ensures !Bit(v1, n) { Down8(v, n + 8); assert !Bit(v, n + 8); }
    forall n: nat | n < 16 ensures !Bit(v2, n) { Down8(v1, n + 8); assert !Bit(v1, n + 8); }
    forall n: nat | n < 8 ensures !Bit(v3, n) { Down8(v2, n + 8); assert !Bit(v2, n + 8); }
    ByteWithoutBits(v);
    ByteWithoutBits(v1);
    ByteWithoutBits(v2);
    ByteWithoutBits(v3);
    NothingIsZero(v);
  }

  lemma XorOfEqual(x: bv32, y: bv32)
    requires Xor32(x, y) == 0
    ensures x == y
  {
  }

  lemma RegistersDiffer(c: bv32, d: bv32)
    requires RegisterPolynomial(c) == RegisterPolynomial(d)
    ensures c == d
  {
    hide RegisterPolynomial, Bit, Xor32;
    forall n: nat | n < 32 ensures !Bit(Xor32(c, d), n) {
      XorBits(c, d, n);
      RegisterMember(c, 31 - n);
      RegisterMember(d, 31 - n);
    }
    WithoutBits(Xor32(c, d));
    XorOfEqual(c, d);
  }

  /** The register after a message is the one and only remainder of dividing the register before it,
      followed by the message, by the generator. */
  lemma RegisterIsRemainder(crc: bv32, bits: seq<bool>, after: bv32)
    ensures (exists q :: Divides(crc, bits, q, RegisterPolynomial(after))) <==> after == Serial(crc, bits)
  {
    hide Serial, Dividend, Times, Plus, Bit;
    var q0 := FeedingDivides(crc, bits);
    var last := Serial(crc, bits);
    if q :| Divides(crc, bits, q, RegisterPolynomial(after)) {
      OneRemainder(q, q0, RegisterPolynomial(after), RegisterPolynomial(last));
      RegistersDiffer(after, last);
    }
  }
}
