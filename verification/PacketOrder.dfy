/** The order in which a packet's instructions run on the copy does not matter: the scheduler may choose it. */
module PacketOrder {
  import opened Conversions
  import opened Dependencies
  import opened Handlers
  import opened InstructionEntry
  import opened Interpreter
  import opened Machine
  import opened Packet
  import opened Words
  import ExecuteEcu
  import ExecuteMul
  import ExecuteRcu

  // ---- Instructions that commute ----

  ghost predicate Commute(i: Instruction, j: Instruction) {
    forall m: State, copy: Registers, cc: bv32 :: i.run(j.run(m, copy, cc), copy, cc) == j.run(i.run(m, copy, cc), copy, cc)
  }

  ghost predicate AllCommute(packet: seq<Instruction>) {
    forall j, k :: 0 <= j < k < |packet| ==> Commute(packet[j], packet[k]) && Commute(packet[k], packet[j])
  }

  function MovedToEnd(packet: seq<Instruction>, k: nat): seq<Instruction>
    requires k < |packet|
  {
    packet[..k] + packet[k + 1..] + [packet[k]]
  }

  lemma OnCopyLast(packet: seq<Instruction>, last: Instruction, m: State, copy: Registers, cc: bv32)
    ensures OnCopy(packet + [last], m, copy, cc) == last.run(OnCopy(packet, m, copy, cc), copy, cc)
  {
    assert (packet + [last])[..|packet|] == packet;
  }

  lemma Commutes(i: Instruction, j: Instruction, m: State, copy: Registers, cc: bv32)
    requires Commute(i, j)
    ensures i.run(j.run(m, copy, cc), copy, cc) == j.run(i.run(m, copy, cc), copy, cc)
  {
  }

  lemma FrontCommutes(packet: seq<Instruction>)
    requires AllCommute(packet) && packet != []
    ensures AllCommute(packet[..|packet| - 1])
  {
    hide Commute;
  }

  /** An instruction may as well run last. */
  lemma {:induction false} MovesToEnd(packet: seq<Instruction>, k: nat, m: State, copy: Registers, cc: bv32)
    requires AllCommute(packet) && k < |packet|
    ensures OnCopy(packet, m, copy, cc) == OnCopy(MovedToEnd(packet, k), m, copy, cc)
    decreases |packet|
  {
    hide Commute, OnCopy;
    var n := |packet| - 1;
    var front, last := packet[..n], packet[n];
    assert packet == front + [last];
    if k == n {
      assert MovedToEnd(packet, k) == packet;
    } else {
      var others := packet[..k] + packet[k + 1..n];
      assert front[..k] + front[k + 1..] == others;
      assert MovedToEnd(packet, k) == others + [last] + [packet[k]];
      FrontCommutes(packet);
      MovesToEnd(front, k, m, copy, cc);
      assert Commute(last, packet[k]);
      OnCopyLast(front, last, m, copy, cc);
      OnCopyLast(others, packet[k], m, copy, cc);
      OnCopyLast(others, last, m, copy, cc);
      OnCopyLast(others + [last], packet[k], m, copy, cc);
      Commutes(last, packet[k], OnCopy(others, m, copy, cc), copy, cc);
    }
  }

  // ---- Changes of the registers that commute ----

  lemma NumbersDiffer(r: bv32, s: bv32)
    requires r != s && r < 48 && s < 48
    ensures r as nat != s as nat
  {
    var none: Registers := seq(48, _ => 0);
    RegAfterSet(none, r, 1, s);
  }

  lemma SetsSwap(p: Registers, r: bv32, v: bv32, s: bv32, w: bv32)
    requires r < 48 && s < 48 && r != s
    ensures SetReg(SetReg(p, r, v), s, w) == SetReg(SetReg(p, s, w), r, v)
  {
    NumbersDiffer(r, s);
    UpdatesSwap(p, r as nat, v, s as nat, w);
  }

  lemma UpdatesSwap(p: seq<bv32>, i: nat, v: bv32, j: nat, w: bv32)
    requires i < |p| && j < |p| && i != j
    ensures p[i := v][j := w] == p[j := w][i := v]
  {
  }

  lemma SetTwice(p: Registers, r: bv32, v: bv32, w: bv32)
    requires r < 48
    ensures SetReg(SetReg(p, r, v), r, w) == SetReg(p, r, w)
  {
    UpdateTwice(p, r as nat, v, w);
  }

  lemma UpdateTwice(p: seq<bv32>, i: nat, v: bv32, w: bv32)
    requires i < |p|
    ensures p[i := v][i := w] == p[i := w]
  {
  }

  /** A change of the registers by what is there. */
  type Change = Registers -> Registers

  /** It makes no difference whether a change comes before or after what the multiplier does. */
  ghost predicate PassesMul(k: Change) {
    && (forall x: Registers, r: bv32, v: bv32 :: r < 32 ==> SetReg(k(x), r, v) == k(SetReg(x, r, v)))
    && (forall x: Registers, result: bv64 :: Flagged(k(x), result) == k(Flagged(x, result)))
  }

  function Flagged(x: Registers, result: bv64): Registers { SetReg(x, CC, ExecuteMul.MulFlags(Reg(x, CC), result)) }
  function Ranged(x: Registers, v: bv32, range: bv32): Registers { SetReg(x, CC, ExecuteRcu.RangeFlags(Reg(x, CC), v, range)) }

  predicate IsIndex(r: bv32) { INDEX <= r < INDEX + 4 }

  /** And the same of what the register unit does. */
  ghost predicate PassesRcu(k: Change) {
    && (forall x: Registers, r: bv32, v: bv32 :: IsIndex(r) ==> SetReg(k(x), r, v) == k(SetReg(x, r, v)))
    && (forall x: Registers, v: bv32, range: bv32 :: Ranged(k(x), v, range) == k(Ranged(x, v, range)))
    && (forall x: Registers :: ExecuteRcu.CountDown(k(x), RC0, COUNTER0_ZERO) == k(ExecuteRcu.CountDown(x, RC0, COUNTER0_ZERO)))
    && (forall x: Registers :: ExecuteRcu.CountDown(k(x), RC1, COUNTER1_ZERO) == k(ExecuteRcu.CountDown(x, RC1, COUNTER1_ZERO)))
  }

  // ---- What passes the multiplier ----

  function Put(r: bv32, v: bv32): Change { (x: Registers) => SetReg(x, r, v) }
  function Ranging(v: bv32, range: bv32): Change { (x: Registers) => Ranged(x, v, range) }
  function Counting(counter: bv32, zero: bv32): Change { (x: Registers) => ExecuteRcu.CountDown(x, counter, zero) }

  lemma FlagsAfterPut(x: Registers, r: bv32, v: bv32)
    requires r < 48 && r != CC
    ensures Reg(SetReg(x, r, v), CC) == Reg(x, CC)
  {
    hide Reg, SetReg;
    RegAfterSet(x, r, v, CC);
  }

  lemma PutPassesMul(s: bv32, w: bv32)
    requires 32 < s < 48
    ensures PassesMul(Put(s, w))
  {
    hide Reg, SetReg, ExecuteMul.MulFlags;
    forall x: Registers, r: bv32, v: bv32 | r < 32 ensures SetReg(SetReg(x, s, w), r, v) == SetReg(SetReg(x, r, v), s, w) {
      SetsSwap(x, r, v, s, w);
    }
    forall x: Registers, result: bv64 ensures Flagged(SetReg(x, s, w), result) == SetReg(Flagged(x, result), s, w) {
      FlagsAfterPut(x, s, w);
      SetsSwap(x, CC, ExecuteMul.MulFlags(Reg(x, CC), result), s, w);
    }
  }

  // ---- Flags of different instructions ----

  lemma BitsWritten(cc: bv32, a: bv32)
    ensures SetBits(cc, a) == cc | a && ClearBits(cc, a) == cc & !a
  {
  }

  lemma SetAfterSet(cc: bv32, a: bv32, b: bv32)
    ensures SetBits(cc | a, b) == cc | a | b
  {
  }

  lemma SetsOfBits(cc: bv32, a: bv32, b: bv32)
    ensures SetBits(SetBits(cc, a), b) == SetBits(SetBits(cc, b), a)
  {
    hide SetBits;
    BitsWritten(cc, a);
    BitsWritten(cc, b);
    SetAfterSet(cc, a, b);
    SetAfterSet(cc, b, a);
  }

  lemma ClearAfterClear(cc: bv32, a: bv32, b: bv32)
    ensures ClearBits(cc & !a, b) == cc & !a & !b
  {
  }

  lemma ClearsOfBits(cc: bv32, a: bv32, b: bv32)
    ensures ClearBits(ClearBits(cc, a), b) == ClearBits(ClearBits(cc, b), a)
  {
    hide ClearBits;
    BitsWritten(cc, a);
    BitsWritten(cc, b);
    ClearAfterClear(cc, a, b);
    ClearAfterClear(cc, b, a);
  }

  lemma MixedBits(cc: bv32, a: bv32, b: bv32)
    requires a & b == 0
    ensures (cc & !a) | b == (cc | b) & !a
  {
  }

  lemma SetAndClear(cc: bv32, a: bv32, b: bv32)
    requires a & b == 0
    ensures SetBits(ClearBits(cc, a), b) == ClearBits(SetBits(cc, b), a)
  {
    hide SetBits, ClearBits;
    BitsWritten(cc, a);
    BitsWritten(cc, b);
    BitsWritten(cc & !a, b);
    BitsWritten(cc | b, a);
    MixedBits(cc, a, b);
  }

  /** Setting or clearing the multiplier's flag goes well with setting or clearing other flags. */
  lemma OverflowApart(cc: bv32, flags: bv32)
    requires flags & MUL_OVERFLOW == 0
    ensures SetBits(SetBits(cc, flags), MUL_OVERFLOW) == SetBits(SetBits(cc, MUL_OVERFLOW), flags)
    ensures ClearBits(SetBits(cc, flags), MUL_OVERFLOW) == SetBits(ClearBits(cc, MUL_OVERFLOW), flags)
    ensures SetBits(ClearBits(cc, flags), MUL_OVERFLOW) == ClearBits(SetBits(cc, MUL_OVERFLOW), flags)
    ensures ClearBits(ClearBits(cc, flags), MUL_OVERFLOW) == ClearBits(ClearBits(cc, MUL_OVERFLOW), flags)
  {
    hide SetBits, ClearBits;
    AndSwaps(flags);
    SetsOfBits(cc, flags, MUL_OVERFLOW);
    SetAndClear(cc, MUL_OVERFLOW, flags);
    SetAndClear(cc, flags, MUL_OVERFLOW);
    ClearsOfBits(cc, flags, MUL_OVERFLOW);
  }

  lemma AndSwaps(flags: bv32)
    ensures flags & MUL_OVERFLOW == MUL_OVERFLOW & flags
  {
  }

  lemma MulAndRangeFlags(cc: bv32, result: bv64, v: bv32, range: bv32)
    ensures ExecuteMul.MulFlags(ExecuteRcu.RangeFlags(cc, v, range), result) == ExecuteRcu.RangeFlags(ExecuteMul.MulFlags(cc, result), v, range)
  {
    hide ExecuteMul.Overflows, ExecuteRcu.Reaches, ExecuteRcu.Negative, SetBits, ClearBits;
    OverflowApart(cc, 0x180);
    OverflowApart(ClearBits(cc, 0x180), MODGE);
    OverflowApart(ClearBits(cc, 0x180), MODMI);
  }

  lemma MulAndCounterFlags(cc: bv32, result: bv64, zero: bv32, count: bv32)
    requires zero & MUL_OVERFLOW == 0
    ensures ExecuteMul.MulFlags(ExecuteRcu.CounterFlags(cc, zero, count), result)
            == ExecuteRcu.CounterFlags(ExecuteMul.MulFlags(cc, result), zero, count)
  {
    hide ExecuteMul.Overflows, SetBits, ClearBits;
    OverflowApart(cc, zero);
  }

  lemma RangingPassesMul(v: bv32, range: bv32)
    ensures PassesMul(Ranging(v, range))
  {
    hide Reg, SetReg, ExecuteMul.MulFlags, ExecuteRcu.RangeFlags;
    forall x: Registers, r: bv32, w: bv32 | r < 32 ensures SetReg(Ranged(x, v, range), r, w) == Ranged(SetReg(x, r, w), v, range) {
      FlagsAfterPut(x, r, w);
      SetsSwap(x, CC, ExecuteRcu.RangeFlags(Reg(x, CC), v, range), r, w);
    }
    forall x: Registers, result: bv64 ensures Flagged(Ranged(x, v, range), result) == Ranged(Flagged(x, result), v, range) {
      FlagsTwice(x, ExecuteRcu.RangeFlags(Reg(x, CC), v, range), ExecuteMul.MulFlags(Reg(x, CC), result));
      MulAndRangeFlags(Reg(x, CC), result, v, range);
      SetTwice(x, CC, ExecuteRcu.RangeFlags(Reg(x, CC), v, range), ExecuteMul.MulFlags(ExecuteRcu.RangeFlags(Reg(x, CC), v, range), result));
      SetTwice(x, CC, ExecuteMul.MulFlags(Reg(x, CC), result), ExecuteRcu.RangeFlags(ExecuteMul.MulFlags(Reg(x, CC), result), v, range));
    }
  }

  lemma FlagsTwice(x: Registers, a: bv32, b: bv32)
    ensures Reg(SetReg(x, CC, a), CC) == a && Reg(SetReg(x, CC, b), CC) == b
  {
    hide Reg, SetReg;
    RegAfterSet(x, CC, a, CC);
    RegAfterSet(x, CC, b, CC);
  }

  predicate IsCounter(counter: bv32, zero: bv32) {
    (counter == RC0 && zero == COUNTER0_ZERO) || (counter == RC1 && zero == COUNTER1_ZERO)
  }

  /** Counting down does not care for a change of flags that are not the counter's, before or after. */
  lemma CountDownAndFlags(x: Registers, counter: bv32, zero: bv32, before: bv32, after: bv32)
    requires IsCounter(counter, zero)
    requires after == ExecuteRcu.CounterFlags(before, zero, Reg(x, counter))
    ensures ExecuteRcu.CountDown(SetReg(x, CC, before), counter, zero) == SetReg(ExecuteRcu.CountDown(x, counter, zero), CC, after)
  {
    hide Reg, SetReg, ExecuteRcu.CounterFlags, ExecuteRcu.Less1;
    var n := Reg(x, counter);
    var l := ExecuteRcu.Less1(n);
    RegAfterSet(x, CC, before, counter);
    RegAfterSet(x, CC, before, CC);
    SetTwice(x, CC, before, after);
    var own := ExecuteRcu.CounterFlags(Reg(x, CC), zero, n);
    SetsSwap(SetReg(x, CC, own), counter, l, CC, after);
    SetTwice(x, CC, own, after);
  }

  lemma FlagsAfterCount(x: Registers, counter: bv32, zero: bv32)
    requires IsCounter(counter, zero)
    ensures Reg(ExecuteRcu.CountDown(x, counter, zero), CC) == ExecuteRcu.CounterFlags(Reg(x, CC), zero, Reg(x, counter))
  {
    hide Reg, SetReg, ExecuteRcu.CounterFlags, ExecuteRcu.Less1;
    var cc := ExecuteRcu.CounterFlags(Reg(x, CC), zero, Reg(x, counter));
    RegAfterSet(x, CC, cc, CC);
    FlagsAfterPut(SetReg(x, CC, cc), counter, ExecuteRcu.Less1(Reg(x, counter)));
  }

  lemma CountDownAndPut(x: Registers, counter: bv32, zero: bv32, r: bv32, v: bv32)
    requires IsCounter(counter, zero) && r < 48 && r != CC && r != counter
    ensures ExecuteRcu.CountDown(SetReg(x, r, v), counter, zero) == SetReg(ExecuteRcu.CountDown(x, counter, zero), r, v)
  {
    hide Reg, SetReg, ExecuteRcu.CounterFlags, ExecuteRcu.Less1;
    var cc := ExecuteRcu.CounterFlags(Reg(x, CC), zero, Reg(x, counter));
    FlagsAfterPut(x, r, v);
    RegAfterSet(x, r, v, counter);
    SetsSwap(x, r, v, CC, cc);
    SetsSwap(SetReg(x, CC, cc), r, v, counter, ExecuteRcu.Less1(Reg(x, counter)));
  }

  lemma CountingPassesMul(counter: bv32, zero: bv32)
    requires IsCounter(counter, zero)
    ensures PassesMul(Counting(counter, zero))
  {
    hide Reg, SetReg, ExecuteMul.MulFlags, ExecuteRcu.CounterFlags, ExecuteRcu.CountDown;
    forall x: Registers, r: bv32, v: bv32 | r < 32
      ensures SetReg(ExecuteRcu.CountDown(x, counter, zero), r, v) == ExecuteRcu.CountDown(SetReg(x, r, v), counter, zero)
    {
      CountDownAndPut(x, counter, zero, r, v);
    }
    forall x: Registers, result: bv64
      ensures Flagged(ExecuteRcu.CountDown(x, counter, zero), result) == ExecuteRcu.CountDown(Flagged(x, result), counter, zero)
    {
      var before := ExecuteMul.MulFlags(Reg(x, CC), result);
      CountersApart(counter, zero);
      MulAndCounterFlags(Reg(x, CC), result, zero, Reg(x, counter));
      FlagsAfterCount(x, counter, zero);
      CountDownAndFlags(x, counter, zero, before, ExecuteRcu.CounterFlags(before, zero, Reg(x, counter)));
    }
  }

  lemma CountersApart(counter: bv32, zero: bv32)
    requires IsCounter(counter, zero)
    ensures zero & MUL_OVERFLOW == 0
  {
  }

  // ---- What passes the register unit ----

  lemma LinkPassesRcu(v: bv32)
    ensures PassesRcu(Put(RZ, v))
  {
    hide Reg, SetReg, ExecuteRcu.RangeFlags, ExecuteRcu.CountDown;
    forall x: Registers, r: bv32, w: bv32 | IsIndex(r) ensures SetReg(SetReg(x, RZ, v), r, w) == SetReg(SetReg(x, r, w), RZ, v) {
      SetsSwap(x, r, w, RZ, v);
    }
    forall x: Registers, w: bv32, range: bv32 ensures Ranged(SetReg(x, RZ, v), w, range) == SetReg(Ranged(x, w, range), RZ, v) {
      FlagsAfterPut(x, RZ, v);
      SetsSwap(x, CC, ExecuteRcu.RangeFlags(Reg(x, CC), w, range), RZ, v);
    }
    forall x: Registers
      ensures ExecuteRcu.CountDown(SetReg(x, RZ, v), RC0, COUNTER0_ZERO) == SetReg(ExecuteRcu.CountDown(x, RC0, COUNTER0_ZERO), RZ, v)
      ensures ExecuteRcu.CountDown(SetReg(x, RZ, v), RC1, COUNTER1_ZERO) == SetReg(ExecuteRcu.CountDown(x, RC1, COUNTER1_ZERO), RZ, v)
    {
      CountDownAndPut(x, RC0, COUNTER0_ZERO, RZ, v);
      CountDownAndPut(x, RC1, COUNTER1_ZERO, RZ, v);
    }
  }

  // ---- The handlers ----

  lemma ScalarPut(k: Change, x: Registers, r: bv32, v: bv32)
    requires PassesMul(k) && r < 32
    ensures SetReg(k(x), r, v) == k(SetReg(x, r, v))
  {
    hide SetReg;
  }

  lemma FlagPut(k: Change, x: Registers, result: bv64)
    requires PassesMul(k)
    ensures Flagged(k(x), result) == k(Flagged(x, result))
  {
    hide SetReg, Flagged;
  }

  /** What passes the multiplier's steps passes its handlers. */
  lemma MulPasses(f: Fields, x: Registers, p: Registers, k: Change)
    requires PassesMul(k) && ExecuteMul.Fits(f)
    ensures ExecuteMul.Registers'(f, k(x), p) == k(ExecuteMul.Registers'(f, x, p))
  {
    hide SetReg, Reg, PassesMul, ExecuteMul.ShapeOf, ExecuteMul.IsSum, ExecuteMul.IsScalar, ExecuteMul.IsLanes, ExecuteMul.IsDot, ExecuteMul.IsVector,
         ExecuteMul.Sum, ExecuteMul.Sum4, ExecuteMul.Lane, ExecuteMul.Lanes, ExecuteMul.ShiftOf, ExecuteMul.ShiftedUp, ExecuteMul.ScalarResult,
         ExecuteMul.MulFlags, ExecuteMul.ShiftByScalar, ExecuteMul.FactorFits, Low32;
    var h, d, s := f.handler, Low32(f.f4), ExecuteMul.ShapeOf(f.handler);
    if ExecuteMul.IsSum(h) {
      ScalarPut(k, x, d, ExecuteMul.Sum(h, Reg(p, Low32(f.f2)), Reg(p, Low32(f.f3))));
    } else if ExecuteMul.IsScalar(h) {
      var result := ExecuteMul.ScalarResult(f, p);
      FlagPut(k, x, result);
      ScalarPut(k, Flagged(x, result), d, Low32(result));
    } else if ExecuteMul.IsLanes(h) {
      LanesPass(s, f, x, p, k);
    } else {
      ScalarPut(k, x, d,
                ExecuteMul.ShiftedUp(ExecuteMul.Sum4(ExecuteMul.Lane(s, f, p, 0, 0), ExecuteMul.Lane(s, f, p, 1, 0),
                                                     ExecuteMul.Lane(s, f, p, 2, 0), ExecuteMul.Lane(s, f, p, 3, 0)), ExecuteMul.ShiftOf(s, f, p)));
    }
  }

  lemma LanesPass(s: ExecuteMul.Shape, f: Fields, x: Registers, p: Registers, k: Change)
    requires PassesMul(k) && ExecuteMul.IsVector(Low32(f.f4))
    ensures ExecuteMul.Lanes(s, f, k(x), p) == k(ExecuteMul.Lanes(s, f, x, p))
  {
    hide SetReg, PassesMul, ExecuteMul.Lane, ExecuteMul.ShiftOf, ExecuteMul.At, ExecuteMul.IsVector, Low32;
    var d, shift := Low32(f.f4), ExecuteMul.ShiftOf(s, f, p);
    ExecuteMul.VectorEnds(d);
    var (v0, v1) := (ExecuteMul.Lane(s, f, p, 0, shift), ExecuteMul.Lane(s, f, p, 1, shift));
    var (v2, v3) := (ExecuteMul.Lane(s, f, p, 2, shift), ExecuteMul.Lane(s, f, p, 3, shift));
    var one := SetReg(x, ExecuteMul.At(d, 0), v0);
    var two := SetReg(one, ExecuteMul.At(d, 1), v1);
    var three := SetReg(two, ExecuteMul.At(d, 2), v2);
    ScalarPut(k, x, ExecuteMul.At(d, 0), v0);
    ScalarPut(k, one, ExecuteMul.At(d, 1), v1);
    ScalarPut(k, two, ExecuteMul.At(d, 2), v2);
    ScalarPut(k, three, ExecuteMul.At(d, 3), v3);
  }

  lemma IndexPut(k: Change, x: Registers, r: bv32, v: bv32)
    requires PassesRcu(k) && IsIndex(r)
    ensures SetReg(k(x), r, v) == k(SetReg(x, r, v))
  {
    hide SetReg;
  }

  lemma RangePut(k: Change, x: Registers, v: bv32, range: bv32)
    requires PassesRcu(k)
    ensures Ranged(k(x), v, range) == k(Ranged(x, v, range))
  {
    hide SetReg, Ranged;
  }

  lemma CountPut(k: Change, x: Registers, info: bv64)
    requires PassesRcu(k)
    ensures ExecuteRcu.CountedDown(k(x), info) == k(ExecuteRcu.CountedDown(x, info))
  {
    hide SetReg, ExecuteRcu.CountDown, ExecuteRcu.Counts0, ExecuteRcu.Counts1;
  }

  lemma IndexNumbers(dest: bv32)
    requires dest < 4
    ensures IsIndex(ExecuteRcu.IndexReg(dest))
  {
  }

  lemma OperatedPasses(f: Fields, x: Registers, p: Registers, k: Change)
    requires PassesRcu(k) && Low32(f.f3) < 4
    ensures ExecuteRcu.Operated(f, k(x), p) == k(ExecuteRcu.Operated(f, x, p))
  {
    hide SetReg, Reg, PassesRcu, ExecuteRcu.RangeFlags, ExecuteRcu.RangeOf, ExecuteRcu.Wrapped, ExecuteRcu.NewInteger, ExecuteRcu.NewIndex, ExecuteRcu.IndexReg, Low32, IsIndex;
    var src, dest := Low32(f.f2), Low32(f.f3);
    IndexNumbers(dest);
    if f.handler < RANGE {
      IndexPut(k, x, ExecuteRcu.IndexReg(dest), ExecuteRcu.NewIndex(f, p));
    } else {
      var v, range := Reg(p, ExecuteRcu.IndexReg(src)), ExecuteRcu.RangeOf(p, src);
      RangePut(k, x, v, range);
      IndexPut(k, Ranged(x, v, range), ExecuteRcu.IndexReg(dest), ExecuteRcu.NewInteger(Reg(p, ExecuteRcu.IndexReg(dest)), ExecuteRcu.Wrapped(v, range)));
    }
  }

  /** What passes the register unit's steps passes its handlers. */
  lemma RcuPasses(f: Fields, x: Registers, p: Registers, k: Change)
    requires PassesRcu(k) && ExecuteRcu.Fits(f)
    ensures ExecuteRcu.Registers'(f, k(x), p) == k(ExecuteRcu.Registers'(f, x, p))
  {
    hide PassesRcu, ExecuteRcu.Operated, ExecuteRcu.CountedDown, ExecuteRcu.AlsoCounts, ExecuteRcu.InUnit, Low32;
    var h := f.handler;
    if DEC_RC1 <= h <= DEC_BOTH {
      CountPut(k, x, h - DEC_RC1 + 1);
    } else if ExecuteRcu.InUnit(h) {
      OperatedPasses(f, x, p, k);
      CountPut(k, ExecuteRcu.Operated(f, x, p), f.f1);
    }
  }

  function MulChange(f: Fields, p: Registers): Change { (x: Registers) => ExecuteMul.Registers'(f, x, p) }
  function RcuChange(f: Fields, p: Registers): Change { (x: Registers) => ExecuteRcu.Registers'(f, x, p) }

  /** The multiplier passes every step of the register unit, as each of these passes the multiplier. */
  lemma MulPassesRcu(f: Fields, p: Registers)
    requires ExecuteMul.Fits(f)
    ensures PassesRcu(MulChange(f, p))
  {
    hide SetReg, Ranged, PassesMul, ExecuteMul.Fits, ExecuteMul.Registers', ExecuteRcu.CountDown;
    forall x: Registers, r: bv32, v: bv32 | IsIndex(r)
      ensures SetReg(ExecuteMul.Registers'(f, x, p), r, v) == ExecuteMul.Registers'(f, SetReg(x, r, v), p)
    {
      PutPassesMul(r, v);
      MulPasses(f, x, p, Put(r, v));
    }
    forall x: Registers, v: bv32, range: bv32
      ensures Ranged(ExecuteMul.Registers'(f, x, p), v, range) == ExecuteMul.Registers'(f, Ranged(x, v, range), p)
    {
      RangingPassesMul(v, range);
      MulPasses(f, x, p, Ranging(v, range));
    }
    CountingPassesMul(RC0, COUNTER0_ZERO);
    CountingPassesMul(RC1, COUNTER1_ZERO);
    forall x: Registers
      ensures ExecuteRcu.CountDown(ExecuteMul.Registers'(f, x, p), RC0, COUNTER0_ZERO) == ExecuteMul.Registers'(f, ExecuteRcu.CountDown(x, RC0, COUNTER0_ZERO), p)
      ensures ExecuteRcu.CountDown(ExecuteMul.Registers'(f, x, p), RC1, COUNTER1_ZERO) == ExecuteMul.Registers'(f, ExecuteRcu.CountDown(x, RC1, COUNTER1_ZERO), p)
    {
      MulPasses(f, x, p, Counting(RC0, COUNTER0_ZERO));
      MulPasses(f, x, p, Counting(RC1, COUNTER1_ZERO));
    }
  }

  lemma MulRcuCommute(f: Fields, g: Fields, masks: Masks, masks': Masks)
    requires ExecuteMul.Fits(f) && ExecuteRcu.Fits(g)
    ensures var (i, j) := (Instruction(ExecuteMul.Bound(f), masks), Instruction(ExecuteRcu.Bound(g), masks')); Commute(i, j) && Commute(j, i)
  {
    hide ExecuteMul.Fits, ExecuteRcu.Fits, ExecuteMul.Registers', ExecuteRcu.Registers', PassesRcu;
    forall x: Registers, p: Registers
      ensures ExecuteRcu.Registers'(g, ExecuteMul.Registers'(f, x, p), p) == ExecuteMul.Registers'(f, ExecuteRcu.Registers'(g, x, p), p)
    {
      MulPassesRcu(f, p);
      RcuPasses(g, x, p, MulChange(f, p));
    }
  }

  // ---- Branches ----

  function Changed(m: State, k: Change): State { m.(regs := k(m.regs)) }

  ghost predicate PassesLink(k: Change) { forall x: Registers, v: bv32 :: SetReg(k(x), RZ, v) == k(SetReg(x, RZ, v)) }

  lemma BranchToPasses(f: Fields, variant: bv64, m: State, target: bv32, cc: bv32, k: Change)
    ensures ExecuteEcu.BranchTo(f, variant, Changed(m, k), target, cc) == Changed(ExecuteEcu.BranchTo(f, variant, m, target, cc), k)
  {
    hide ExecuteEcu.Taken, ExecuteEcu.Nop;
  }

  lemma CallToPasses(f: Fields, variant: bv64, m: State, target: bv32, cc: bv32, k: Change)
    requires PassesLink(k)
    ensures ExecuteEcu.CallTo(f, variant, Changed(m, k), target, cc) == Changed(ExecuteEcu.CallTo(f, variant, m, target, cc), k)
  {
    hide ExecuteEcu.Taken, ExecuteEcu.Nop, SetReg, Low32;
  }

  lemma ReturnPasses(f: Fields, variant: bv64, m: State, target: bv32, bit: bv32, cc: bv32, k: Change)
    ensures ExecuteEcu.LeaveInterrupt(f, variant, Changed(m, k), target, bit, cc) == Changed(ExecuteEcu.LeaveInterrupt(f, variant, m, target, bit, cc), k)
  {
    hide ExecuteEcu.TestCondition, ExecuteEcu.Nop, Low32;
  }

  lemma HaltPasses(m: State, k: Change)
    ensures ExecuteEcu.Halted(Changed(m, k)) == Changed(ExecuteEcu.Halted(m), k)
  {
  }

  /** A branch changes no register but rz, and not by what is in the registers. */
  lemma BranchPasses(f: Fields, m: State, p: Registers, cc: bv32, k: Change)
    requires PassesLink(k)
    ensures ExecuteEcu.Execute(f, Changed(m, k), p, cc) == Changed(ExecuteEcu.Execute(f, m, p, cc), k)
  {
    hide PassesLink, ExecuteEcu.BranchTo, ExecuteEcu.CallTo, ExecuteEcu.LeaveInterrupt, ExecuteEcu.Halted, ExecuteEcu.Known, ExecuteEcu.VariantOf, Reg, Low32;
    var h := f.handler;
    HaltPasses(m, k);
    BranchToPasses(f, ExecuteEcu.VariantOf(h, BRA), m, Low32(f.f2), cc, k);
    BranchToPasses(f, ExecuteEcu.VariantOf(h, JMP_INDIRECT), m, Reg(p, Low32(f.f2)), cc, k);
    CallToPasses(f, ExecuteEcu.VariantOf(h, JSR), m, Low32(f.f2), cc, k);
    CallToPasses(f, ExecuteEcu.VariantOf(h, JSR_INDIRECT), m, Reg(p, Low32(f.f2)), cc, k);
    ReturnPasses(f, ExecuteEcu.VariantOf(h, RTI1), m, Reg(p, RZI1), 0x02, cc, k);
    ReturnPasses(f, ExecuteEcu.VariantOf(h, RTI2), m, Reg(p, RZI2), 0x20, cc, k);
    BranchToPasses(f, ExecuteEcu.VariantOf(h, RTS), m, Reg(p, RZ), cc, k);
  }

  lemma EcuMulCommute(f: Fields, g: Fields, masks: Masks, masks': Masks)
    requires ExecuteMul.Fits(g)
    ensures var (i, j) := (Instruction(ExecuteEcu.Bound(f), masks), Instruction(ExecuteMul.Bound(g), masks')); Commute(i, j) && Commute(j, i)
  {
    hide ExecuteMul.Fits, ExecuteMul.Registers', ExecuteEcu.Execute, SetReg, PassesMul;
    forall x: Registers, p: Registers, v: bv32
      ensures SetReg(MulChange(g, p)(x), RZ, v) == MulChange(g, p)(SetReg(x, RZ, v))
    {
      PutPassesMul(RZ, v);
      MulPasses(g, x, p, Put(RZ, v));
    }
    forall m: State, p: Registers, cc: bv32
      ensures ExecuteEcu.Execute(f, ExecuteMul.Execute(g, m, p), p, cc) == ExecuteMul.Execute(g, ExecuteEcu.Execute(f, m, p, cc), p)
    {
      BranchPasses(f, m, p, cc, MulChange(g, p));
    }
  }

  lemma EcuRcuCommute(f: Fields, g: Fields, masks: Masks, masks': Masks)
    requires ExecuteRcu.Fits(g)
    ensures var (i, j) := (Instruction(ExecuteEcu.Bound(f), masks), Instruction(ExecuteRcu.Bound(g), masks')); Commute(i, j) && Commute(j, i)
  {
    hide ExecuteRcu.Fits, ExecuteRcu.Registers', ExecuteEcu.Execute, SetReg, PassesRcu;
    forall x: Registers, p: Registers, v: bv32
      ensures SetReg(RcuChange(g, p)(x), RZ, v) == RcuChange(g, p)(SetReg(x, RZ, v))
    {
      LinkPassesRcu(v);
      RcuPasses(g, x, p, Put(RZ, v));
    }
    forall m: State, p: Registers, cc: bv32
      ensures ExecuteEcu.Execute(f, ExecuteRcu.Execute(g, m, p), p, cc) == ExecuteRcu.Execute(g, ExecuteEcu.Execute(f, m, p, cc), p)
    {
      BranchPasses(f, m, p, cc, RcuChange(g, p));
    }
  }

  // ---- Packets of decoded instructions ----

  datatype Unit = Ecu | Rcu | Mul

  function UnitOf(form: Form): Unit {
    if form.Mul16? || form.Mul32? then Mul else if form.Rcu16? then Rcu else Ecu
  }

  /** The handler of a decoded instruction is one of its unit, with operands that fit it. */
  lemma DecodedHandler(form: Form, pc: bv32, f: Fields, m: Masks)
    requires !NoInstruction(form)
    ensures var (g, i) := (FieldsAfter(f, EffectsOf(form, pc)), Decoded(form, pc, f, m));
            match UnitOf(form)
            case Ecu => ExecuteEcu.Fits(g) && i.run == ExecuteEcu.Bound(g)
            case Rcu => ExecuteRcu.Fits(g) && i.run == ExecuteRcu.Bound(g)
            case Mul => ExecuteMul.Fits(g) && i.run == ExecuteMul.Bound(g)
  {
    DecodedFits(form, pc, f, m);
    hide EffectsOf, FieldsAfter, MasksAfter, ExecuteEcu.Fits, ExecuteRcu.Fits, ExecuteMul.Fits, ExecuteEcu.Bound, ExecuteRcu.Bound, ExecuteMul.Bound, Handle,
         NoInstruction;
    var g := FieldsAfter(f, EffectsOf(form, pc));
    match UnitOf(form)
    case Ecu => EcuHandled(g);
    case Rcu => RcuHandled(g);
    case Mul => MulHandled(g);
  }

  lemma DecodedCommute(s: Source, t: Source, pc: bv32)
    requires !NoInstruction(s.form) && !NoInstruction(t.form) && UnitOf(s.form) != UnitOf(t.form)
    ensures var (i, j) := (Decoded(s.form, pc, s.f, s.m), Decoded(t.form, pc, t.f, t.m)); Commute(i, j) && Commute(j, i)
  {
    DecodedHandler(s.form, pc, s.f, s.m);
    DecodedHandler(t.form, pc, t.f, t.m);
    hide EffectsOf, FieldsAfter, MasksAfter, ExecuteEcu.Fits, ExecuteRcu.Fits, ExecuteMul.Fits, ExecuteEcu.Bound, ExecuteRcu.Bound, ExecuteMul.Bound, Handle,
         NoInstruction, Commute;
    var (i, j) := (Decoded(s.form, pc, s.f, s.m), Decoded(t.form, pc, t.f, t.m));
    var (g, h) := (FieldsAfter(s.f, EffectsOf(s.form, pc)), FieldsAfter(t.f, EffectsOf(t.form, pc)));
    match (UnitOf(s.form), UnitOf(t.form)) {
      case (Mul, Rcu) => MulRcuCommute(g, h, i.masks, j.masks);
      case (Rcu, Mul) => MulRcuCommute(h, g, j.masks, i.masks);
      case (Ecu, Mul) => EcuMulCommute(g, h, i.masks, j.masks);
      case (Mul, Ecu) => EcuMulCommute(h, g, j.masks, i.masks);
      case (Ecu, Rcu) => EcuRcuCommute(g, h, i.masks, j.masks);
      case (Rcu, Ecu) => EcuRcuCommute(h, g, j.masks, i.masks);
    }
  }

  /** Instructions all of them, and at most one for each unit. */
  predicate OneForEach(sources: seq<Source>) {
    && (forall i :: 0 <= i < |sources| ==> !NoInstruction(sources[i].form))
    && (forall j, k :: 0 <= j < k < |sources| ==> UnitOf(sources[j].form) != UnitOf(sources[k].form))
  }

  lemma SourcesCommute(sources: seq<Source>, pc: bv32)
    requires OneForEach(sources)
    ensures AllCommute(Instructions(sources, pc))
  {
    hide Commute, Decoded, UnitOf, NoInstruction;
    var packet := Instructions(sources, pc);
    forall j, k | 0 <= j < k < |packet| ensures Commute(packet[j], packet[k]) && Commute(packet[k], packet[j]) {
      DecodedCommute(sources[j], sources[k], pc);
    }
  }

  function Without(s: seq<Source>, k: nat): seq<Source>
    requires k < |s|
  {
    s[..k] + s[k + 1..]
  }

  lemma Removed(s: seq<Source>, k: nat)
    requires k < |s|
    ensures multiset(s) == multiset(Without(s, k)) + multiset{s[k]}
  {
    assert s == s[..k] + [s[k]] + s[k + 1..];
  }

  lemma Cancel(a: multiset<Source>, b: multiset<Source>, x: Source)
    requires a + multiset{x} == b + multiset{x}
    ensures a == b
  {
    forall y ensures a[y] == b[y] {
      assert (a + multiset{x})[y] == (b + multiset{x})[y];
    }
  }

  lemma Elsewhere(s: seq<Source>, k: nat, x: Source) returns (b: nat)
    requires k < |s| && x in Without(s, k)
    ensures b < |s| && b != k && s[b] == x
  {
    var c :| 0 <= c < |Without(s, k)| && Without(s, k)[c] == x;
    b := if c < k then c else c + 1;
  }

  lemma Reordered(s: seq<Source>, t: seq<Source>) returns (k: nat)
    requires multiset(s) == multiset(t) && s != []
    ensures k < |t| && t[k] == s[|s| - 1]
    ensures multiset(s[..|s| - 1]) == multiset(Without(t, k))
  {
    hide Without;
    var n := |s| - 1;
    assert s[n] in multiset(t);
    k :| 0 <= k < |t| && t[k] == s[n];
    Removed(s, n);
    WithoutLast(s);
    Removed(t, k);
    Cancel(multiset(Without(s, n)), multiset(Without(t, k)), s[n]);
  }

  lemma WithoutLast(s: seq<Source>)
    requires s != []
    ensures Without(s, |s| - 1) == s[..|s| - 1]
  {
  }

  /** Sources are one for each unit whatever their order. */
  lemma StillOneForEach(s: seq<Source>, t: seq<Source>)
    requires OneForEach(s) && multiset(s) == multiset(t)
    ensures OneForEach(t)
  {
    hide NoInstruction, UnitOf;
    forall i | 0 <= i < |t| ensures !NoInstruction(t[i].form) {
      assert t[i] in multiset(t);
      assert t[i] in s;
    }
    forall j, k | 0 <= j < k < |t| ensures UnitOf(t[j].form) != UnitOf(t[k].form) {
      TwoOf(s, t, j, k);
    }
  }

  lemma TwoOf(s: seq<Source>, t: seq<Source>, j: nat, k: nat)
    requires OneForEach(s) && multiset(s) == multiset(t) && j < k < |t|
    ensures UnitOf(t[j].form) != UnitOf(t[k].form)
  {
    hide NoInstruction, UnitOf, Without;
    assert t[j] in multiset(t);
    var a :| 0 <= a < |s| && s[a] == t[j];
    Removed(s, a);
    Removed(t, j);
    Cancel(multiset(Without(s, a)), multiset(Without(t, j)), t[j]);
    LaterStays(t, j, k);
    assert t[k] in multiset(Without(s, a));
    var b := Elsewhere(s, a, t[k]);
    if b < a {
      assert UnitOf(s[b].form) != UnitOf(s[a].form);
    }
  }

  lemma LaterStays(t: seq<Source>, j: nat, k: nat)
    requires j < k < |t|
    ensures t[k] in multiset(Without(t, j))
  {
    assert Without(t, j)[k - 1] == t[k];
  }

  /** A packet with at most one instruction for each unit means the same in every order that its
      instructions are scheduled in. */
  lemma {:induction false} OrderDoesNotMatter(s: seq<Source>, t: seq<Source>, pc: bv32, m: State, copy: Registers, cc: bv32)
    requires OneForEach(s) && multiset(s) == multiset(t)
    ensures OnCopy(Instructions(s, pc), m, copy, cc) == OnCopy(Instructions(t, pc), m, copy, cc)
    decreases |s|
  {
    hide OneForEach, AllCommute, Commute, Decoded, OnCopy;
    if s == [] {
      assert t == [] by { assert |multiset(t)| == 0; }
    } else {
      var n := |s| - 1;
      var k := Reordered(s, t);
      var rest := Without(t, k);
      StillOneForEach(s, t);
      SourcesCommute(t, pc);
      MovesToEnd(Instructions(t, pc), k, m, copy, cc);
      assert MovedToEnd(Instructions(t, pc), k) == Instructions(rest, pc) + [Instructions(t, pc)[k]];
      assert Instructions(s, pc) == Instructions(s[..n], pc) + [Instructions(s, pc)[n]];
      OnCopyLast(Instructions(rest, pc), Instructions(t, pc)[k], m, copy, cc);
      OnCopyLast(Instructions(s[..n], pc), Instructions(s, pc)[n], m, copy, cc);
      FrontOneForEach(s);
      OrderDoesNotMatter(s[..n], rest, pc, m, copy, cc);
    }
  }

  lemma FrontOneForEach(s: seq<Source>)
    requires OneForEach(s) && s != []
    ensures OneForEach(s[..|s| - 1])
  {
    hide NoInstruction, UnitOf;
  }
}
