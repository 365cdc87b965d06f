/** The register-unit decoder: counter decrements, index register arithmetic, modulo and range. */
module DecodeRcu {
  import opened Conversions
  import opened Dependencies
  import opened Handlers
  import opened InstructionEntry
  import opened Words

  const INFO_RCU: bv32 := 0x00000008

  function Asr11(x: bv32): bv32 { if x & 0x80000000 != 0 then (x >> 11) | 0xFFE00000 else x >> 11 }

  // ---- What the forms decode to ----

  function DecInfo(b1: Byte): Byte { b1 & 0x03 }
  function InfoField(b1: Byte): bv64 { Widen(Wide(DecInfo(b1))) }

  function DecHandler(b1: Byte): Field {
    if DecInfo(b1) == 0 then Leave else if DecInfo(b1) == 1 then Set(DEC_RC1)
    else if DecInfo(b1) == 2 then Set(DEC_RC0) else Set(DEC_BOTH)
  }

  function Counter0(): bv32 { Or(MASK_RC0, FLAG_C0Z) }
  function Counter1(): bv32 { Or(MASK_RC1, FLAG_C1Z) }

  function DecMask(b1: Byte): bv32 {
    if DecInfo(b1) == 0 then 0 else if DecInfo(b1) == 1 then Counter1()
    else if DecInfo(b1) == 2 then Counter0() else Or(Counter0(), Counter1())
  }

  function SrcField(b0: Byte, b1: Byte): bv32 { ((Wide(b0) & 0x03) << 3) | (Wide(b1) >> 5) }
  function DestField(b1: Byte): bv32 { (Wide(b1) >> 3) & 0x03 }

  /** A 32-bit immediate from the extension word and the five bits of the source field in its middle. */
  function LongImmediate(src: bv64, immExt: bv32): bv64 {
    Widen((immExt & 0xFFFF0000) << 5) | (src << 16) | Widen(immExt & 0xFFFF)
  }

  /** The five bits alone, as a signed 16.16 number. */
  function ShortImmediate(src: bv64): bv64 { SignExtend(Asr11(Low32(src << 27))) }

  predicate IsDecOnly(b0: Byte, b1: Byte) { b0 == 0xF9 && b1 & 0x04 != 0 }
  predicate IsAddrForm(b0: Byte) { b0 & 0x7C == 0x74 }
  predicate Bit2(b1: Byte) { b1 & 0x04 != 0 }
  predicate Bit1(b0: Byte) { b0 & 0x02 != 0 }

  /** Each handler has a neighbour for when a counter is decremented too. */
  function Counting(handler: bv64, b1: Byte): bv64 { if DecInfo(b1) == 0 then handler else handler + 1 }

  function Effect(handler: bv64, b1: Byte, src: bv64, scalarIn: Update, miscIn: Update, miscOut: bv32): Effects {
    Effects(Set(Counting(handler, b1)), Set(InfoField(b1)), Set(src), Set(Widen(DestField(b1))), Leave, INFO_RCU,
            scalarIn, miscIn, Keep, Merge(Or(DecMask(b1), miscOut)))
  }

  function AddrSource(b0: Byte, b1: Byte, immExt: bv32): bv64 {
    var src := Widen(SrcField(b0, b1));
    if !Bit2(b1) then src else if immExt != 0 then LongImmediate(src, immExt) else ShortImmediate(src)
  }

  function AddrHandler(b1: Byte): bv64 { if Bit2(b1) then ADDR_IMMEDIATE else ADDR_SCALAR }
  function AddrScalar(b0: Byte, b1: Byte): Update { if Bit2(b1) then Keep else Merge(ScalarMask(SrcField(b0, b1))) }

  function AddrEffects(b0: Byte, b1: Byte, immExt: bv32): Effects {
    var index := IndexMask(DestField(b1));
    Effect(AddrHandler(b1), b1, AddrSource(b0, b1, immExt), AddrScalar(b0, b1), Merge(Or(DecMask(b1), index)), index)
  }

  function MvrHandler(immExt: bv32): bv64 { if immExt != 0 then MVR_IMMEDIATE else MVR_SCALAR }

  function MvrSource(b0: Byte, b1: Byte, immExt: bv32): bv64 {
    var src := Widen(SrcField(b0, b1));
    if immExt != 0 then LongImmediate(src, immExt) else src
  }

  function MvrScalar(b0: Byte, b1: Byte, immExt: bv32): Update {
    if immExt != 0 then Keep else Merge(ScalarMask(SrcField(b0, b1)))
  }

  function MvrEffects(b0: Byte, b1: Byte, immExt: bv32): Effects {
    Effect(MvrHandler(immExt), b1, MvrSource(b0, b1, immExt), MvrScalar(b0, b1, immExt), Merge(DecMask(b1)), IndexMask(DestField(b1)))
  }

  function RangeWord(dest: bv32): bv32 { if dest <= 1 then MASK_XYRANGE else MASK_UVRANGE }
  function RangeFlagWord(): bv32 { Or(FLAG_MODMI, FLAG_MODGE) }

  function RangeHandler(b0: Byte): bv64 { if Bit1(b0) then RANGE else MODULO }

  /** Only a modulo changes the register. */
  function RangeOut(b0: Byte, b1: Byte): bv32 {
    if Bit1(b0) then RangeFlagWord() else Or(RangeFlagWord(), IndexMask(DestField(b1)))
  }

  function RangeIn(b1: Byte): bv32 { Or(IndexMask(DestField(b1)), RangeWord(DestField(b1))) }

  function RangeEffects(b0: Byte, b1: Byte): Effects {
    Effect(RangeHandler(b0), b1, Widen(DestField(b1)), Keep, Merge(Or(DecMask(b1), RangeIn(b1))), RangeOut(b0, b1))
  }

  function CountEffects(b1: Byte): Effects {
    Effects(DecHandler(b1), Set(InfoField(b1)), Leave, Leave, Leave, INFO_RCU, Keep, Merge(DecMask(b1)), Keep, Merge(DecMask(b1)))
  }

  function Rcu16(b0: Byte, b1: Byte, immExt: bv32): Effects {
    if IsDecOnly(b0, b1) then CountEffects(b1)
    else if IsAddrForm(b0) then AddrEffects(b0, b1, immExt)
    else if immExt != 0 || !Bit2(b1) then MvrEffects(b0, b1, immExt)
    else RangeEffects(b0, b1)
  }

  // ---- The decoder ----

  lemma DecInfos(b1: Byte)
    ensures DecInfo(b1) == 0 || DecInfo(b1) == 1 || DecInfo(b1) == 2 || DecInfo(b1) == 3
  {
  }

  method Count(entry: Entry, b1: Byte)
    modifies entry`packetInfo, entry.rcu`handler, entry.rcu`f1, entry.rcu`miscIn, entry.rcu`miscOut
    ensures entry.packetInfo == Or(old(entry.packetInfo), INFO_RCU)
    ensures entry.rcu.handler == Pick(DecHandler(b1), old(entry.rcu.handler)) && entry.rcu.f1 == InfoField(b1)
    ensures entry.rcu.miscIn == Or(old(entry.rcu.miscIn), DecMask(b1))
    ensures entry.rcu.miscOut == Or(old(entry.rcu.miscOut), DecMask(b1))
  {
    hide Or, Widen, DecInfo;
    DecInfos(b1);
    var rcu := entry.rcu;
    OrNothing(rcu.miscIn);
    OrNothing(rcu.miscOut);
    entry.packetInfo := Or(entry.packetInfo, INFO_RCU);
    rcu.f1 := InfoField(b1);
    if DecInfo(b1) == 1 {
      rcu.handler := DEC_RC1;
      rcu.miscIn := Or(rcu.miscIn, Counter1());
      rcu.miscOut := Or(rcu.miscOut, Counter1());
    } else if DecInfo(b1) == 2 {
      rcu.handler := DEC_RC0;
      rcu.miscIn := Or(rcu.miscIn, Counter0());
      rcu.miscOut := Or(rcu.miscOut, Counter0());
    } else if DecInfo(b1) == 3 {
      rcu.handler := DEC_BOTH;
      rcu.miscIn := Or(rcu.miscIn, Or(Counter0(), Counter1()));
      rcu.miscOut := Or(rcu.miscOut, Or(Counter0(), Counter1()));
    }
  }

  /** The counters' part and then the operation's own words. */
  method CountAnd(entry: Entry, b1: Byte, miscIn: bv32, miscOut: bv32)
    modifies entry`packetInfo, entry.rcu`handler, entry.rcu`f1, entry.rcu`miscIn, entry.rcu`miscOut
    ensures entry.packetInfo == Or(old(entry.packetInfo), INFO_RCU) && entry.rcu.f1 == InfoField(b1)
    ensures entry.rcu.miscIn == Or(old(entry.rcu.miscIn), Or(DecMask(b1), miscIn))
    ensures entry.rcu.miscOut == Or(old(entry.rcu.miscOut), Or(DecMask(b1), miscOut))
  {
    hide Or, DecMask, InfoField, DecHandler, Pick;
    var rcu := entry.rcu;
    OrAssociates(rcu.miscIn, DecMask(b1), miscIn);
    OrAssociates(rcu.miscOut, DecMask(b1), miscOut);
    Count(entry, b1);
    rcu.miscIn := Or(rcu.miscIn, miscIn);
    rcu.miscOut := Or(rcu.miscOut, miscOut);
  }

  method Choose(rcu: Slot, handler: bv64, b1: Byte)
    modifies rcu`handler
    ensures rcu.handler == Counting(handler, b1)
  {
    if DecInfo(b1) == 0 {
      rcu.handler := handler;
    } else {
      rcu.handler := handler + 1;
    }
  }

  method AddrOperands(rcu: Slot, b0: Byte, b1: Byte, immExt: bv32)
    modifies rcu`handler, rcu`f2, rcu`scalarIn
    ensures rcu.handler == Counting(AddrHandler(b1), b1) && rcu.f2 == AddrSource(b0, b1, immExt)
    ensures rcu.scalarIn == Updated(AddrScalar(b0, b1), old(rcu.scalarIn))
  {
    hide LongImmediate, ShortImmediate, Widen, SrcField, Bit2, Or, ScalarMask, Counting;
    rcu.f2 := Widen(SrcField(b0, b1));
    if Bit2(b1) {
      if immExt != 0 {
        rcu.f2 := LongImmediate(rcu.f2, immExt);
      } else {
        rcu.f2 := ShortImmediate(rcu.f2);
      }
      Choose(rcu, ADDR_IMMEDIATE, b1);
    } else {
      Choose(rcu, ADDR_SCALAR, b1);
      rcu.scalarIn := Or(rcu.scalarIn, ScalarMask(SrcField(b0, b1)));
    }
  }

  method Addr(entry: Entry, b0: Byte, b1: Byte, immExt: bv32)
    modifies entry`packetInfo, entry.rcu
    ensures entry.rcu.Decoded(AddrEffects(b0, b1, immExt)) && entry.packetInfo == Or(old(entry.packetInfo), INFO_RCU)
  {
    hide Or, Widen, DecMask, InfoField, DecHandler, Counting, DestField, IndexMask, AddrSource, AddrScalar, AddrHandler, Pick, Updated;
    Settings();
    Merging();
    var rcu := entry.rcu;
    var index := IndexMask(DestField(b1));
    CountAnd(entry, b1, index, index);
    rcu.f3 := Widen(DestField(b1));
    AddrOperands(rcu, b0, b1, immExt);
  }

  method MvrOperands(rcu: Slot, b0: Byte, b1: Byte, immExt: bv32)
    modifies rcu`handler, rcu`f2, rcu`scalarIn
    ensures rcu.handler == Counting(MvrHandler(immExt), b1) && rcu.f2 == MvrSource(b0, b1, immExt)
    ensures rcu.scalarIn == Updated(MvrScalar(b0, b1, immExt), old(rcu.scalarIn))
  {
    hide LongImmediate, Widen, SrcField, Or, ScalarMask, Counting;
    rcu.f2 := Widen(SrcField(b0, b1));
    if immExt != 0 {
      rcu.f2 := LongImmediate(rcu.f2, immExt);
      Choose(rcu, MVR_IMMEDIATE, b1);
    } else {
      Choose(rcu, MVR_SCALAR, b1);
      rcu.scalarIn := Or(rcu.scalarIn, ScalarMask(SrcField(b0, b1)));
    }
  }

  method Mvr(entry: Entry, b0: Byte, b1: Byte, immExt: bv32)
    modifies entry`packetInfo, entry.rcu
    ensures entry.rcu.Decoded(MvrEffects(b0, b1, immExt)) && entry.packetInfo == Or(old(entry.packetInfo), INFO_RCU)
  {
    hide Or, Widen, DecMask, InfoField, DecHandler, Counting, DestField, IndexMask, MvrSource, MvrScalar, MvrHandler, Pick, Updated;
    Settings();
    Merging();
    var rcu := entry.rcu;
    OrNothing(DecMask(b1));
    CountAnd(entry, b1, 0, IndexMask(DestField(b1)));
    rcu.f3 := Widen(DestField(b1));
    MvrOperands(rcu, b0, b1, immExt);
  }

  method RangeOperands(rcu: Slot, b0: Byte, b1: Byte)
    modifies rcu`handler, rcu`miscOut
    ensures rcu.handler == Counting(RangeHandler(b0), b1)
    ensures rcu.miscOut == Or(old(rcu.miscOut), RangeOut(b0, b1))
  {
    hide Or, RangeFlagWord, IndexMask, DestField, Counting, Bit1;
    if Bit1(b0) {
      rcu.miscOut := Or(rcu.miscOut, RangeFlagWord());
      Choose(rcu, RANGE, b1);
    } else {
      rcu.miscOut := Or(rcu.miscOut, Or(RangeFlagWord(), IndexMask(DestField(b1))));
      Choose(rcu, MODULO, b1);
    }
  }

  /** range and modulo read the register that their destination field names. */
  method RangeOrModulo(entry: Entry, b0: Byte, b1: Byte)
    modifies entry`packetInfo, entry.rcu
    ensures entry.rcu.Decoded(RangeEffects(b0, b1)) && entry.packetInfo == Or(old(entry.packetInfo), INFO_RCU)
  {
    hide Or, Widen, DecMask, InfoField, DecHandler, Counting, DestField, SrcField, RangeIn, RangeOut, RangeHandler, Pick, Updated;
    Settings();
    Merging();
    var rcu := entry.rcu;
    OrAssociates(rcu.miscIn, DecMask(b1), RangeIn(b1));
    OrAssociates(rcu.miscOut, DecMask(b1), RangeOut(b0, b1));
    Count(entry, b1);
    rcu.f2 := Widen(SrcField(b0, b1));
    rcu.f3 := Widen(DestField(b1));
    rcu.f2 := rcu.f3;
    rcu.miscIn := Or(rcu.miscIn, RangeIn(b1));
    RangeOperands(rcu, b0, b1);
  }

  method CountOnly(entry: Entry, b1: Byte)
    modifies entry`packetInfo, entry.rcu
    ensures entry.rcu.Decoded(CountEffects(b1)) && entry.packetInfo == Or(old(entry.packetInfo), INFO_RCU)
  {
    hide Or, DecHandler, InfoField, DecMask, Pick, Updated;
    Settings();
    Merging();
    Count(entry, b1);
  }

  lemma Merging()
    ensures forall mask, was :: Updated(Merge(mask), was) == Or(was, mask)
  {
  }

  /** The decoder as a whole. Only a decrement alone drops the extension word, which belongs to no other
      instruction of the packet then. */
  method Decode16(entry: Entry, b0: Byte, b1: Byte, immExt: bv32) returns (left: bv32)
    modifies entry`packetInfo, entry.rcu
    ensures entry.rcu.Decoded(Rcu16(b0, b1, immExt)) && entry.packetInfo == Or(old(entry.packetInfo), INFO_RCU)
    ensures left == immExt || left == 0
    ensures IsDecOnly(b0, b1) ==> left == 0
    ensures left != immExt ==> IsDecOnly(b0, b1)
  {
    hide Or, CountEffects, AddrEffects, MvrEffects, RangeEffects, IsDecOnly, IsAddrForm, Bit2, Pick, Updated;
    left := immExt;
    if IsDecOnly(b0, b1) {
      CountOnly(entry, b1);
      left := 0;
    } else if IsAddrForm(b0) {
      Addr(entry, b0, b1, immExt);
    } else if immExt != 0 || !Bit2(b1) {
      Mvr(entry, b0, b1, immExt);
    } else {
      RangeOrModulo(entry, b0, b1);
    }
  }
}
