/** The multiplier decoder: 16-bit forms and the sixteen kinds of 32-bit form. */
module DecodeMul {
  import opened Conversions
  import opened Dependencies
  import opened Handlers
  import opened InstructionEntry
  import opened Words

  const INFO_MUL: bv32 := 0x00000020

  function Word(x: bv32): Field { Set(Widen(x)) }
  function VectorOf(r: bv32): bv32 { r & 0x1C }

  /** Register fields: the upper one, the lower one, and in 32-bit forms the one of the last byte. */
  function Upper(b0: Byte, b1: Byte): bv32 { ((Wide(b0) & 0x03) << 3) | (Wide(b1) >> 5) }
  function Lower(b1: Byte): bv32 { Wide(b1) & 0x1F }

  // ---- What the forms decode to ----

  function Effect(handler: bv64, info: Field, src1: Field, src2: bv32, dest: bv32,
                  scalarIn: bv32, miscIn: Update, scalarOut: bv32, miscOut: Update): Effects {
    Effects(Set(handler), info, src1, Word(src2), Word(dest), INFO_MUL,
            Replace(scalarIn), miscIn, Replace(scalarOut), miscOut)
  }

  /** mul_sv of two vectors, shifted by svshift. */
  function VectorBySvshift(i: bv32, j: bv32, k: bv32): Effects {
    Effect(MUL_SV_VECTOR + 1, Leave, Word(VectorOf(i)), VectorOf(j), VectorOf(k),
           Or(VectorMask(VectorOf(j)), VectorMask(VectorOf(i))), Replace(MASK_SVSHIFT), VectorMask(VectorOf(k)), Keep)
  }

  /** mul of two scalars, shifted by acshift. */
  function ScalarByAcshift(i: bv32, j: bv32, k: bv32): Effects {
    Effect(MUL_SCALAR_ACSHIFT, Leave, Word(i), j, k,
           Or(ScalarMask(j), ScalarMask(i)), Replace(MASK_ACSHIFT), ScalarMask(k), Replace(FLAG_MV))
  }

  function Mul16(b0: Byte, b1: Byte): Effects {
    if b0 & 0x04 != 0 then VectorBySvshift(Lower(b1), Upper(b0, b1), Upper(b0, b1))
    else ScalarByAcshift(Lower(b1), Upper(b0, b1), Upper(b0, b1))
  }

  predicate Marked(b3: Byte) { b3 & 0x80 != 0 }

  /** A signed seven-bit shift: its size, to the right if it is not negative. */
  function Seven(b3: Byte): bv32 { Wide(b3) & 0x7F }
  function Negated(m: bv32): bv32 { 128 - m }
  predicate ShiftsRight(b3: Byte) { Seven(b3) & 0x40 == 0 }
  function ShiftSize(b3: Byte): bv32 { if ShiftsRight(b3) then Seven(b3) else Negated(Seven(b3)) }

  function Directed(b3: Byte, right: bv64, left: bv64): bv64 { if ShiftsRight(b3) then right else left }

  function ScalarShifted(i: bv32, j: bv32, k: bv32, b3: Byte): Effects {
    if Marked(b3) then
      Effect(Directed(b3, MUL_SCALAR_RIGHT, MUL_SCALAR_LEFT), Word(ShiftSize(b3)), Word(i), j, j,
             Or(ScalarMask(j), ScalarMask(i)), Keep, ScalarMask(j), Replace(FLAG_MV))
    else ScalarByAcshift(i, j, k)
  }

  function ShiftedByRegister(i: bv32, j: bv32, k: bv32, b3: Byte): Effects {
    if Marked(b3) then
      Effect(MUL_IMMEDIATE_ACSHIFT, Leave, Word(i), j, k, ScalarMask(j), Replace(MASK_ACSHIFT), ScalarMask(k), Replace(FLAG_MV))
    else
      Effect(MUL_SCALAR_SCALAR, Word(k), Word(i), j, j,
             Or(Or(ScalarMask(j), ScalarMask(i)), ScalarMask(k)), Keep, ScalarMask(j), Replace(FLAG_MV))
  }

  function ImmediateProductByScalar(i: bv32, j: bv32, k: bv32): Effects {
    Effect(MUL_IMMEDIATE_SCALAR, Word(k), Word(i), j, j, Or(ScalarMask(j), ScalarMask(k)), Keep, ScalarMask(j), Replace(FLAG_MV))
  }

  function ImmediateProduct(i: bv32, j: bv32, k: bv32, b3: Byte): Effects {
    if Marked(b3) then
      ImmediateProductByScalar(i, j, k)
    else
      Effect(Directed(b3, MUL_IMMEDIATE_RIGHT, MUL_IMMEDIATE_LEFT), Word(ShiftSize(b3)), Word(i), j, j,
             ScalarMask(j), Keep, ScalarMask(j), Replace(FLAG_MV))
  }

  function TwoBits(b3: Byte): bv32 { (Wide(b3) & 0x60) >> 5 }

  // The products whose shift is a two-bit immediate or svshift; misc are the other registers they read.
  function EndHandler(handler: bv64, b3: Byte): bv64 { if Marked(b3) then handler else handler + 1 }
  function EndInfo(b3: Byte): Field { if Marked(b3) then Word(TwoBits(b3)) else Leave }

  function EndMisc(misc: bv32, b3: Byte): Update {
    if Marked(b3) then (if misc == 0 then Keep else Replace(misc))
    else Replace(if misc == 0 then MASK_SVSHIFT else Or(misc, MASK_SVSHIFT))
  }

  function SmallShift(handler: bv64, src1: Field, src2: bv32, dest: bv32, scalarIn: bv32, scalarOut: bv32, misc: bv32, b3: Byte): Effects {
    Effect(EndHandler(handler, b3), EndInfo(b3), src1, src2, dest, scalarIn, EndMisc(misc, b3), scalarOut, Keep)
  }

  function Sums(handler: bv64, j: bv32, i: bv32, k: bv32): Effects {
    Effect(handler, Leave, Word(j), i, k, Or(ScalarMask(j), ScalarMask(i)), Keep, ScalarMask(k), Keep)
  }

  const NO_MUL := Effects(Leave, Leave, Leave, Leave, Leave, INFO_MUL, Keep, Keep, Keep, Keep)

  function RuAndControl(): bv32 { Or(MASK_RU, MASK_UVCTL) }
  function RvAndControl(): bv32 { Or(MASK_RV, MASK_UVCTL) }

  function Products(kind: Byte, j: bv32, i: bv32, k: bv32, b3: Byte): Effects {
    var (vj, vi, vk) := (VectorOf(j), VectorOf(i), VectorOf(k));
    if kind == 0x04 then SmallShift(MUL_SV_SCALAR, Word(j), vi, vk, Or(ScalarMask(j), VectorMask(vi)), VectorMask(vk), 0, b3)
    else if kind == 0x05 then SmallShift(MUL_SV_RU, Leave, vj, vk, VectorMask(vj), VectorMask(vk), RuAndControl(), b3)
    else if kind == 0x06 then SmallShift(MUL_SV_RV, Leave, vj, vk, VectorMask(vj), VectorMask(vk), RvAndControl(), b3)
    else if kind == 0x07 then SmallShift(MUL_SV_VECTOR, Word(vi), vj, vk, Or(VectorMask(vj), VectorMask(vi)), VectorMask(vk), 0, b3)
    else if kind == 0x08 then SmallShift(MUL_P_SCALAR, Word(j), vi, vk, Or(ScalarMask(j), PixelMask(vi)), PixelMask(vk), 0, b3)
    else if kind == 0x09 then SmallShift(MUL_P_RU, Leave, vj, vk, PixelMask(vj), PixelMask(vk), RuAndControl(), b3)
    else if kind == 0x0A then SmallShift(MUL_P_RV, Leave, vj, vk, PixelMask(vj), PixelMask(vk), RvAndControl(), b3)
    else if kind == 0x0B then SmallShift(MUL_P_VECTOR, Word(vi), vj, vk, Or(PixelMask(vj), PixelMask(vi)), PixelMask(vk), 0, b3)
    else if kind == 0x0C then SmallShift(DOTP_SCALAR, Word(j), vi, k, Or(ScalarMask(j), VectorMask(vi)), ScalarMask(k), 0, b3)
    else SmallShift(DOTP_VECTOR, Word(vj), vi, k, Or(VectorMask(vj), VectorMask(vi)), ScalarMask(k), 0, b3)
  }

  function KindOf(b2: Byte): Byte { b2 & 0x0F }

  function Mul32(b0: Byte, b1: Byte, b2: Byte, b3: Byte): Effects {
    var j, i, k := Upper(b0, b1), Lower(b1), Lower(b3);
    var kind := KindOf(b2);
    if kind == 0x00 then ScalarShifted(i, j, k, b3)
    else if kind == 0x01 then ShiftedByRegister(i, j, k, b3)
    else if kind == 0x02 then ImmediateProduct(i, j, k, b3)
    else if kind == 0x03 then NO_MUL
    else if kind == 0x0E then Sums(ADDM, j, i, k)
    else if kind == 0x0F then Sums(SUBM, j, i, k)
    else Products(kind, j, i, k, b3)
  }

  // ---- The decoders ----

  method VectorForm(mul: Slot, i: bv32, k: bv32)
    modifies mul
    ensures mul.Decoded(VectorBySvshift(i, k, k))
  {
    hide Or, VectorMask, VectorOf, Widen, Pick, Updated;
    Settings();
    mul.handler := MUL_SV_VECTOR + 1;
    mul.f2 := Widen(VectorOf(i));
    mul.f3 := Widen(VectorOf(k));
    mul.f4 := Widen(VectorOf(k));
    mul.scalarIn := Or(VectorMask(VectorOf(k)), VectorMask(VectorOf(i)));
    mul.miscIn := MASK_SVSHIFT;
    mul.scalarOut := VectorMask(VectorOf(k));
  }

  method ScalarForm(mul: Slot, i: bv32, j: bv32, k: bv32)
    modifies mul
    ensures mul.Decoded(ScalarByAcshift(i, j, k))
  {
    hide Or, ScalarMask, Widen, Pick, Updated;
    Settings();
    mul.handler := MUL_SCALAR_ACSHIFT;
    mul.f2 := Widen(i);
    mul.f3 := Widen(j);
    mul.f4 := Widen(k);
    mul.scalarIn := Or(ScalarMask(j), ScalarMask(i));
    mul.miscIn := MASK_ACSHIFT;
    mul.scalarOut := ScalarMask(k);
    mul.miscOut := FLAG_MV;
  }

  method Decode16(entry: Entry, b0: Byte, b1: Byte)
    modifies entry`packetInfo, entry.mul
    ensures entry.mul.Decoded(Mul16(b0, b1)) && entry.packetInfo == Or(old(entry.packetInfo), INFO_MUL)
  {
    hide Or, VectorBySvshift, ScalarByAcshift, Upper, Lower;
    entry.packetInfo := Or(entry.packetInfo, INFO_MUL);
    if b0 & 0x04 != 0 {
      VectorForm(entry.mul, Lower(b1), Upper(b0, b1));
    } else {
      ScalarForm(entry.mul, Lower(b1), Upper(b0, b1), Upper(b0, b1));
    }
  }

  method ShiftByImmediate(mul: Slot, right: bv64, left: bv64, b3: Byte)
    modifies mul`handler, mul`f1
    ensures mul.handler == Directed(b3, right, left) && mul.f1 == Widen(ShiftSize(b3))
  {
    hide Widen, Seven, Negated;
    if Seven(b3) & 0x40 == 0 {
      mul.handler := right;
      mul.f1 := Widen(Seven(b3));
    } else {
      mul.handler := left;
      mul.f1 := Widen(Negated(Seven(b3)));
    }
  }

  method Kind00(mul: Slot, i: bv32, j: bv32, k: bv32, b3: Byte)
    modifies mul
    ensures mul.Decoded(ScalarShifted(i, j, k, b3))
  {
    hide Or, ScalarMask, Widen, Directed, ShiftSize, Marked, Pick, Updated;
    Settings();
    if Marked(b3) {
      mul.f2 := Widen(i);
      mul.f3 := Widen(j);
      mul.f4 := Widen(j);
      ShiftByImmediate(mul, MUL_SCALAR_RIGHT, MUL_SCALAR_LEFT, b3);
      mul.scalarIn := Or(ScalarMask(j), ScalarMask(i));
      mul.scalarOut := ScalarMask(j);
      mul.miscOut := FLAG_MV;
    } else {
      ScalarForm(mul, i, j, k);
    }
  }

  method Kind01(mul: Slot, i: bv32, j: bv32, k: bv32, b3: Byte)
    modifies mul
    ensures mul.Decoded(ShiftedByRegister(i, j, k, b3))
  {
    hide Or, ScalarMask, Widen, Marked, Pick, Updated;
    Settings();
    mul.f2 := Widen(i);
    mul.f3 := Widen(j);
    if Marked(b3) {
      mul.handler := MUL_IMMEDIATE_ACSHIFT;
      mul.f4 := Widen(k);
      mul.scalarIn := ScalarMask(j);
      mul.miscIn := MASK_ACSHIFT;
      mul.scalarOut := ScalarMask(k);
    } else {
      mul.handler := MUL_SCALAR_SCALAR;
      mul.f4 := Widen(j);
      mul.f1 := Widen(k);
      mul.scalarIn := Or(Or(ScalarMask(j), ScalarMask(i)), ScalarMask(k));
      mul.scalarOut := ScalarMask(j);
    }
    mul.miscOut := FLAG_MV;
  }

  method ImmediateByScalar(mul: Slot, i: bv32, j: bv32, k: bv32)
    modifies mul
    ensures mul.Decoded(ImmediateProductByScalar(i, j, k))
  {
    hide Or, ScalarMask, Widen, Pick, Updated;
    Settings();
    mul.handler := MUL_IMMEDIATE_SCALAR;
    mul.f2 := Widen(i);
    mul.f3 := Widen(j);
    mul.f4 := Widen(j);
    mul.f1 := Widen(k);
    mul.scalarIn := Or(ScalarMask(j), ScalarMask(k));
    mul.scalarOut := ScalarMask(j);
    mul.miscOut := FLAG_MV;
  }

  method Kind02(mul: Slot, i: bv32, j: bv32, k: bv32, b3: Byte)
    modifies mul
    ensures mul.Decoded(ImmediateProduct(i, j, k, b3))
  {
    hide Or, ScalarMask, Widen, Directed, ShiftSize, Marked, ImmediateProductByScalar, Pick, Updated;
    Settings();
    if Marked(b3) {
      ImmediateByScalar(mul, i, j, k);
    } else {
      mul.f2 := Widen(i);
      mul.f3 := Widen(j);
      mul.f4 := Widen(j);
      ShiftByImmediate(mul, MUL_IMMEDIATE_RIGHT, MUL_IMMEDIATE_LEFT, b3);
      mul.scalarIn := ScalarMask(j);
      mul.scalarOut := ScalarMask(j);
      mul.miscOut := FLAG_MV;
    }
  }

  /** No instruction: the slot stays as it is. */
  method Kind03(mul: Slot)
    ensures mul.Decoded(NO_MUL)
  {
  }

  /** The end that most kinds share: the shift is two bits of the instruction or the register svshift. */
  method SmallShiftEnd(mul: Slot, handler: bv64, misc: bv32, b3: Byte)
    modifies mul`handler, mul`f1, mul`miscIn
    ensures mul.handler == EndHandler(handler, b3)
    ensures mul.f1 == Pick(EndInfo(b3), old(mul.f1))
    ensures mul.miscIn == Updated(EndMisc(misc, b3), old(mul.miscIn))
  {
    hide Or, Widen, TwoBits, Marked;
    if Marked(b3) {
      mul.handler := handler;
      mul.f1 := Widen(TwoBits(b3));
      if misc != 0 { mul.miscIn := misc; }
    } else {
      mul.handler := handler + 1;
      mul.miscIn := if misc == 0 then MASK_SVSHIFT else Or(misc, MASK_SVSHIFT);
    }
  }

  method Kind04(mul: Slot, j: bv32, vi: bv32, vk: bv32, b3: Byte)
    modifies mul
    ensures mul.Decoded(SmallShift(MUL_SV_SCALAR, Word(j), vi, vk, Or(ScalarMask(j), VectorMask(vi)), VectorMask(vk), 0, b3))
  {
    hide Or, ScalarMask, PixelMask, VectorMask, Widen, RuAndControl, RvAndControl, EndHandler, EndInfo, EndMisc, Pick, Updated;
    Settings();
    mul.f2 := Widen(j);
    mul.f3 := Widen(vi);
    mul.f4 := Widen(vk);
    mul.scalarIn := Or(ScalarMask(j), VectorMask(vi));
    mul.scalarOut := VectorMask(vk);
    SmallShiftEnd(mul, MUL_SV_SCALAR, 0, b3);
  }

  method Kind05(mul: Slot, vj: bv32, vk: bv32, b3: Byte)
    modifies mul
    ensures mul.Decoded(SmallShift(MUL_SV_RU, Leave, vj, vk, VectorMask(vj), VectorMask(vk), RuAndControl(), b3))
  {
    hide Or, ScalarMask, PixelMask, VectorMask, Widen, RuAndControl, RvAndControl, EndHandler, EndInfo, EndMisc, Pick, Updated;
    Settings();
    mul.f3 := Widen(vj);
    mul.f4 := Widen(vk);
    mul.scalarIn := VectorMask(vj);
    mul.scalarOut := VectorMask(vk);
    SmallShiftEnd(mul, MUL_SV_RU, RuAndControl(), b3);
  }

  method Kind06(mul: Slot, vj: bv32, vk: bv32, b3: Byte)
    modifies mul
    ensures mul.Decoded(SmallShift(MUL_SV_RV, Leave, vj, vk, VectorMask(vj), VectorMask(vk), RvAndControl(), b3))
  {
    hide Or, ScalarMask, PixelMask, VectorMask, Widen, RuAndControl, RvAndControl, EndHandler, EndInfo, EndMisc, Pick, Updated;
    Settings();
    mul.f3 := Widen(vj);
    mul.f4 := Widen(vk);
    mul.scalarIn := VectorMask(vj);
    mul.scalarOut := VectorMask(vk);
    SmallShiftEnd(mul, MUL_SV_RV, RvAndControl(), b3);
  }

  method Kind07(mul: Slot, vj: bv32, vi: bv32, vk: bv32, b3: Byte)
    modifies mul
    ensures mul.Decoded(SmallShift(MUL_SV_VECTOR, Word(vi), vj, vk, Or(VectorMask(vj), VectorMask(vi)), VectorMask(vk), 0, b3))
  {
    hide Or, ScalarMask, PixelMask, VectorMask, Widen, RuAndControl, RvAndControl, EndHandler, EndInfo, EndMisc, Pick, Updated;
    Settings();
    mul.f2 := Widen(vi);
    mul.f3 := Widen(vj);
    mul.f4 := Widen(vk);
    mul.scalarIn := Or(VectorMask(vj), VectorMask(vi));
    mul.scalarOut := VectorMask(vk);
    SmallShiftEnd(mul, MUL_SV_VECTOR, 0, b3);
  }

  method Kind08(mul: Slot, j: bv32, vi: bv32, vk: bv32, b3: Byte)
    modifies mul
    ensures mul.Decoded(SmallShift(MUL_P_SCALAR, Word(j), vi, vk, Or(ScalarMask(j), PixelMask(vi)), PixelMask(vk), 0, b3))
  {
    hide Or, ScalarMask, PixelMask, VectorMask, Widen, RuAndControl, RvAndControl, EndHandler, EndInfo, EndMisc, Pick, Updated;
    Settings();
    mul.f2 := Widen(j);
    mul.f3 := Widen(vi);
    mul.f4 := Widen(vk);
    mul.scalarIn := Or(ScalarMask(j), PixelMask(vi));
    mul.scalarOut := PixelMask(vk);
    SmallShiftEnd(mul, MUL_P_SCALAR, 0, b3);
  }

  method Kind09(mul: Slot, vj: bv32, vk: bv32, b3: Byte)
    modifies mul
    ensures mul.Decoded(SmallShift(MUL_P_RU, Leave, vj, vk, PixelMask(vj), PixelMask(vk), RuAndControl(), b3))
  {
    hide Or, ScalarMask, PixelMask, VectorMask, Widen, RuAndControl, RvAndControl, EndHandler, EndInfo, EndMisc, Pick, Updated;
    Settings();
    mul.f3 := Widen(vj);
    mul.f4 := Widen(vk);
    mul.scalarIn := PixelMask(vj);
    mul.scalarOut := PixelMask(vk);
    SmallShiftEnd(mul, MUL_P_RU, RuAndControl(), b3);
  }

  method Kind0A(mul: Slot, vj: bv32, vk: bv32, b3: Byte)
    modifies mul
    ensures mul.Decoded(SmallShift(MUL_P_RV, Leave, vj, vk, PixelMask(vj), PixelMask(vk), RvAndControl(), b3))
  {
    hide Or, ScalarMask, PixelMask, VectorMask, Widen, RuAndControl, RvAndControl, EndHandler, EndInfo, EndMisc, Pick, Updated;
    Settings();
    mul.f3 := Widen(vj);
    mul.f4 := Widen(vk);
    mul.scalarIn := PixelMask(vj);
    mul.scalarOut := PixelMask(vk);
    SmallShiftEnd(mul, MUL_P_RV, RvAndControl(), b3);
  }

  method Kind0B(mul: Slot, vj: bv32, vi: bv32, vk: bv32, b3: Byte)
    modifies mul
    ensures mul.Decoded(SmallShift(MUL_P_VECTOR, Word(vi), vj, vk, Or(PixelMask(vj), PixelMask(vi)), PixelMask(vk), 0, b3))
  {
    hide Or, ScalarMask, PixelMask, VectorMask, Widen, RuAndControl, RvAndControl, EndHandler, EndInfo, EndMisc, Pick, Updated;
    Settings();
    mul.f2 := Widen(vi);
    mul.f3 := Widen(vj);
    mul.f4 := Widen(vk);
    mul.scalarIn := Or(PixelMask(vj), PixelMask(vi));
    mul.scalarOut := PixelMask(vk);
    SmallShiftEnd(mul, MUL_P_VECTOR, 0, b3);
  }

  method Kind0C(mul: Slot, j: bv32, vi: bv32, k: bv32, b3: Byte)
    modifies mul
    ensures mul.Decoded(SmallShift(DOTP_SCALAR, Word(j), vi, k, Or(ScalarMask(j), VectorMask(vi)), ScalarMask(k), 0, b3))
  {
    hide Or, ScalarMask, PixelMask, VectorMask, Widen, RuAndControl, RvAndControl, EndHandler, EndInfo, EndMisc, Pick, Updated;
    Settings();
    mul.f2 := Widen(j);
    mul.f3 := Widen(vi);
    mul.f4 := Widen(k);
    mul.scalarIn := Or(ScalarMask(j), VectorMask(vi));
    mul.scalarOut := ScalarMask(k);
    SmallShiftEnd(mul, DOTP_SCALAR, 0, b3);
  }

  method Kind0D(mul: Slot, vj: bv32, vi: bv32, k: bv32, b3: Byte)
    modifies mul
    ensures mul.Decoded(SmallShift(DOTP_VECTOR, Word(vj), vi, k, Or(VectorMask(vj), VectorMask(vi)), ScalarMask(k), 0, b3))
  {
    hide Or, ScalarMask, PixelMask, VectorMask, Widen, RuAndControl, RvAndControl, EndHandler, EndInfo, EndMisc, Pick, Updated;
    Settings();
    mul.f2 := Widen(vj);
    mul.f3 := Widen(vi);
    mul.f4 := Widen(k);
    mul.scalarIn := Or(VectorMask(vj), VectorMask(vi));
    mul.scalarOut := ScalarMask(k);
    SmallShiftEnd(mul, DOTP_VECTOR, 0, b3);
  }

  method SumForm(mul: Slot, handler: bv64, j: bv32, i: bv32, k: bv32)
    modifies mul
    ensures mul.Decoded(Sums(handler, j, i, k))
  {
    hide Or, ScalarMask, Widen, Pick, Updated;
    Settings();
    mul.handler := handler;
    mul.f2 := Widen(j);
    mul.f3 := Widen(i);
    mul.f4 := Widen(k);
    mul.scalarIn := Or(ScalarMask(j), ScalarMask(i));
    mul.scalarOut := ScalarMask(k);
  }

  method ProductForms(mul: Slot, kind: Byte, j: bv32, i: bv32, k: bv32, b3: Byte)
    requires 0x04 <= kind <= 0x0D
    modifies mul
    ensures mul.Decoded(Products(kind, j, i, k, b3))
  {
    hide Or, SmallShift, VectorOf, VectorMask, PixelMask, ScalarMask, RuAndControl, RvAndControl, Widen, Pick, Updated;
    var (vj, vi, vk) := (VectorOf(j), VectorOf(i), VectorOf(k));
    if kind == 0x04 { Kind04(mul, j, vi, vk, b3); }
    else if kind == 0x05 { Kind05(mul, vj, vk, b3); }
    else if kind == 0x06 { Kind06(mul, vj, vk, b3); }
    else if kind == 0x07 { Kind07(mul, vj, vi, vk, b3); }
    else if kind == 0x08 { Kind08(mul, j, vi, vk, b3); }
    else if kind == 0x09 { Kind09(mul, vj, vk, b3); }
    else if kind == 0x0A { Kind0A(mul, vj, vk, b3); }
    else if kind == 0x0B { Kind0B(mul, vj, vi, vk, b3); }
    else if kind == 0x0C { Kind0C(mul, j, vi, k, b3); }
    else { Kind0D(mul, vj, vi, k, b3); }
  }

  method Decode32(entry: Entry, b0: Byte, b1: Byte, b2: Byte, b3: Byte)
    modifies entry`packetInfo, entry.mul
    ensures entry.mul.Decoded(Mul32(b0, b1, b2, b3)) && entry.packetInfo == Or(old(entry.packetInfo), INFO_MUL)
  {
    hide Or, Upper, Lower, KindOf, ScalarShifted, ShiftedByRegister, ImmediateProduct, Sums, Products, Pick, Updated;
    entry.packetInfo := Or(entry.packetInfo, INFO_MUL);
    var j, i, k := Upper(b0, b1), Lower(b1), Lower(b3);
    var kind, mul := KindOf(b2), entry.mul;
    if kind == 0x00 { Kind00(mul, i, j, k, b3); }
    else if kind == 0x01 { Kind01(mul, i, j, k, b3); }
    else if kind == 0x02 { Kind02(mul, i, j, k, b3); }
    else if kind == 0x03 { Kind03(mul); }
    else if kind == 0x0E { SumForm(mul, ADDM, j, i, k); }
    else if kind == 0x0F { SumForm(mul, SUBM, j, i, k); }
    else { KindsBelow16(b2); ProductForms(mul, kind, j, i, k, b3); }
  }

  lemma KindsBelow16(b2: Byte)
    ensures KindOf(b2) <= 0x0F
  {
  }
}
