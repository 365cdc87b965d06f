/** Packets of decoded instructions: the interpreter's test for dependencies is enough. */
module Interpreter {
  import opened Conversions
  import opened Dependencies
  import opened Handlers
  import opened InstructionEntry
  import opened Machine
  import opened Packet
  import opened Words
  import DecodeEcu
  import DecodeMul
  import DecodeRcu
  import ExecuteEcu
  import ExecuteMul
  import ExecuteRcu
  import SoundEcu
  import SoundMul
  import SoundRcu

  /** The bytes of an instruction, for the decoder of its unit. */
  datatype Form =
    | Mul16(b0: Byte, b1: Byte)
    | Mul32(b0: Byte, b1: Byte, b2: Byte, b3: Byte)
    | Ecu16(b0: Byte, b1: Byte, immExt: bv32)
    | Ecu32(b0: Byte, b1: Byte, b2: Byte, b3: Byte, immExt: bv32)
    | Rcu16(b0: Byte, b1: Byte, immExt: bv32)

  function EffectsOf(form: Form, pc: bv32): Effects {
    match form
    case Mul16(b0, b1) => DecodeMul.Mul16(b0, b1)
    case Mul32(b0, b1, b2, b3) => DecodeMul.Mul32(b0, b1, b2, b3)
    case Ecu16(b0, b1, immExt) => DecodeEcu.Ecu16(b0, b1, immExt, pc)
    case Ecu32(b0, b1, b2, b3, immExt) => DecodeEcu.Ecu32(b0, b1, b2, b3, immExt, pc)
    case Rcu16(b0, b1, immExt) => DecodeRcu.Rcu16(b0, b1, immExt)
  }

  /** Bytes that name no instruction: the multiplier's kind 3, the return of kind 3, a decrement of no counter. */
  predicate NoInstruction(form: Form) {
    match form
    case Mul16(_, _) => false
    case Mul32(_, _, b2, _) => b2 & 0x0F == 0x03
    case Ecu16(b0, b1, _) => b0 & 0x0C == 0 && b1 & 0x06 == 0x06
    case Ecu32(_, _, _, _, _) => false
    case Rcu16(b0, b1, _) => b0 == 0xF9 && b1 & 0x07 == 0x04
  }

  /** The handler table: 1 to 25 for branches, 26 to 40 for the register unit, 117 to 150 for the multiplier.
      The handlers of the other units are not modelled. */
  function Handle(f: Fields): Handler {
    if f.handler <= RTS + 3 then ExecuteEcu.Bound(f)
    else if f.handler <= MODULO + 1 then ExecuteRcu.Bound(f)
    else ExecuteMul.Bound(f)
  }

  /** What the interpreter runs for an instruction decoded into a slot that held f and m. */
  function Decoded(form: Form, pc: bv32, f: Fields, m: Masks): Instruction {
    Instruction(Handle(FieldsAfter(f, EffectsOf(form, pc))), MasksAfter(m, EffectsOf(form, pc)))
  }

  lemma EcuHandled(f: Fields)
    requires ExecuteEcu.Fits(f)
    ensures Handle(f) == ExecuteEcu.Bound(f)
  {
    hide ExecuteEcu.Bound, ExecuteRcu.Bound, ExecuteMul.Bound, ExecuteEcu.Indirect;
  }

  lemma RcuHandled(f: Fields)
    requires ExecuteRcu.Fits(f)
    ensures Handle(f) == ExecuteRcu.Bound(f)
  {
    hide ExecuteEcu.Bound, ExecuteRcu.Bound, ExecuteMul.Bound, ExecuteRcu.ReadsScalar, ExecuteRcu.IsRange;
  }

  lemma MulHandled(f: Fields)
    requires ExecuteMul.Fits(f)
    ensures Handle(f) == ExecuteMul.Bound(f)
  {
    hide ExecuteEcu.Bound, ExecuteRcu.Bound, ExecuteMul.Bound, ExecuteMul.FactorFits, ExecuteMul.ShapeOf, ExecuteMul.IsVector;
  }

  lemma EffectChooses()
    ensures forall handler, f1, f2, f3, f4, scalarIn, miscIn, scalarOut, miscOut ::
              DecodeMul.Effect(handler, f1, f2, f3, f4, scalarIn, miscIn, scalarOut, miscOut).f0.Set?
  {
  }

  lemma MulFormsChoose(i: bv32, j: bv32, k: bv32, b3: Byte)
    ensures DecodeMul.VectorBySvshift(i, j, k).f0.Set? && DecodeMul.ScalarByAcshift(i, j, k).f0.Set?
    ensures DecodeMul.ScalarShifted(i, j, k, b3).f0.Set? && DecodeMul.ShiftedByRegister(i, j, k, b3).f0.Set?
    ensures DecodeMul.ImmediateProduct(i, j, k, b3).f0.Set?
  {
    hide DecodeMul.Effect, DecodeMul.VectorOf, DecodeMul.Word, DecodeMul.Marked, DecodeMul.Directed, DecodeMul.ShiftSize, Or, ScalarMask, VectorMask;
    EffectChooses();
  }

  lemma MulProductsChoose(handler: bv64, kind: Byte, i: bv32, j: bv32, k: bv32, b3: Byte)
    ensures DecodeMul.Sums(handler, j, i, k).f0.Set? && DecodeMul.Products(kind, j, i, k, b3).f0.Set?
  {
    hide DecodeMul.Effect, DecodeMul.VectorOf, DecodeMul.Word, DecodeMul.EndHandler, DecodeMul.EndInfo, DecodeMul.EndMisc, DecodeMul.RuAndControl,
         DecodeMul.RvAndControl, Or, ScalarMask, VectorMask, PixelMask;
    EffectChooses();
  }

  lemma MulChooses(b0: Byte, b1: Byte, b2: Byte, b3: Byte)
    ensures DecodeMul.Mul16(b0, b1).f0.Set?
    ensures DecodeMul.Mul32(b0, b1, b2, b3).f0.Set? <==> b2 & 0x0F != 0x03
  {
    hide DecodeMul.Upper, DecodeMul.Lower, DecodeMul.VectorBySvshift, DecodeMul.ScalarByAcshift, DecodeMul.ScalarShifted, DecodeMul.ShiftedByRegister,
         DecodeMul.ImmediateProduct, DecodeMul.Sums, DecodeMul.Products;
    MulFormsChoose(DecodeMul.Lower(b1), DecodeMul.Upper(b0, b1), DecodeMul.Upper(b0, b1), b3);
    MulFormsChoose(DecodeMul.Lower(b1), DecodeMul.Upper(b0, b1), DecodeMul.Lower(b3), b3);
    MulProductsChoose(ADDM, DecodeMul.KindOf(b2), DecodeMul.Lower(b1), DecodeMul.Upper(b0, b1), DecodeMul.Lower(b3), b3);
    MulProductsChoose(SUBM, DecodeMul.KindOf(b2), DecodeMul.Lower(b1), DecodeMul.Upper(b0, b1), DecodeMul.Lower(b3), b3);
  }

  lemma EcuChooses(b0: Byte, b1: Byte, b2: Byte, b3: Byte, immExt: bv32, pc: bv32)
    ensures DecodeEcu.Ecu16(b0, b1, immExt, pc).f0.Set? <==> b0 & 0x0C != 0 || b1 & 0x06 != 0x06
    ensures DecodeEcu.Ecu32(b0, b1, b2, b3, immExt, pc).f0.Set?
  {
    hide DecodeEcu.Going, DecodeEcu.BranchCond, DecodeEcu.BranchOffset, DecodeEcu.Cond32, DecodeEcu.AbsoluteTarget, DecodeEcu.MediumOffset,
         DecodeEcu.Register, DecodeEcu.FlagDependencies, DecodeEcu.Variant, DecodeEcu.BranchInfo, DecodeEcu.JsrInfo, Or, ScalarMask, Widen;
    ReturnKinds(b1);
    GoingChooses();
  }

  lemma ReturnKinds(b1: Byte)
    ensures DecodeEcu.ReturnKind(b1) <= 3 && (DecodeEcu.ReturnKind(b1) == 3 <==> b1 & 0x06 == 0x06)
    ensures b1 == 0x01 ==> b1 & 0x06 != 0x06
  {
  }

  lemma GoingChooses()
    ensures forall handler, cond, address, info, scalarIn, miscOut ::
              DecodeEcu.Going(handler, cond, address, info, scalarIn, miscOut).f0.Set?
  {
  }

  lemma RcuChooses(b0: Byte, b1: Byte, immExt: bv32)
    ensures DecodeRcu.Rcu16(b0, b1, immExt).f0.Set? <==> !(b0 == 0xF9 && b1 & 0x07 == 0x04)
  {
    hide DecodeRcu.AddrSource, DecodeRcu.AddrScalar, DecodeRcu.MvrSource, DecodeRcu.MvrScalar, DecodeRcu.RangeIn, DecodeRcu.RangeOut,
         DecodeRcu.DecMask,
         DecodeRcu.Counting, DecodeRcu.InfoField, DecodeRcu.DestField, DecodeRcu.IsAddrForm, IndexMask, Or, Widen;
    CounterBits(b1);
  }

  lemma CounterBits(b1: Byte)
    ensures b1 & 0x07 == 0x04 <==> b1 & 0x04 != 0 && DecodeRcu.DecInfo(b1) == 0
  {
  }

  lemma KindIsLowBits(b2: Byte)
    ensures DecodeMul.KindOf(b2) == b2 & 0x0F
  {
  }

  /** Any other bytes choose a handler. */
  lemma ChoosesHandler(form: Form, pc: bv32)
    ensures EffectsOf(form, pc).f0.Set? <==> !NoInstruction(form)
  {
    hide DecodeMul.Mul16, DecodeMul.Mul32, DecodeEcu.Ecu16, DecodeEcu.Ecu32, DecodeRcu.Rcu16;
    match form {
      case Mul16(b0, b1) => MulChooses(b0, b1, 0, 0);
      case Mul32(b0, b1, b2, b3) => MulChooses(b0, b1, b2, b3);
      case Ecu16(b0, b1, immExt) => EcuChooses(b0, b1, 0, 0, immExt, pc);
      case Ecu32(b0, b1, b2, b3, immExt) => EcuChooses(b0, b1, b2, b3, immExt, pc);
      case Rcu16(b0, b1, immExt) => RcuChooses(b0, b1, immExt);
    }
  }

  /** Decoded operands fit the handler, and the words include what it needs. */
  lemma DecodedFits(form: Form, pc: bv32, f: Fields, m: Masks)
    requires !NoInstruction(form)
    ensures var e := EffectsOf(form, pc);
            if form.Mul16? || form.Mul32? then Truthful(ExecuteMul.Fits, ExecuteMul.Needs, f, m, e)
            else if form.Rcu16? then Truthful(ExecuteRcu.Fits, ExecuteRcu.Needs, f, m, e)
            else Truthful(ExecuteEcu.Fits, ExecuteEcu.Needs, f, m, e)
  {
    hide Truthful, DecodeMul.Mul16, DecodeMul.Mul32, DecodeEcu.Ecu16, DecodeEcu.Ecu32, DecodeRcu.Rcu16;
    ChoosesHandler(form, pc);
    match form {
      case Mul16(b0, b1) => SoundMul.Mul16Truthful(b0, b1, f, m);
      case Mul32(b0, b1, b2, b3) =>
        KindIsLowBits(b2);
        SoundMul.Mul32Truthful(b0, b1, b2, b3, f, m);
      case Ecu16(b0, b1, immExt) => SoundEcu.Ecu16Truthful(b0, b1, immExt, pc, f, m);
      case Ecu32(b0, b1, b2, b3, immExt) => SoundEcu.Ecu32Truthful(b0, b1, b2, b3, immExt, pc, f, m);
      case Rcu16(b0, b1, immExt) => SoundRcu.Rcu16Truthful(b0, b1, immExt, f, m);
    }
  }

  /** Whatever an instruction's bytes are, its dependency words are true of the handler that they choose. */
  lemma DecodedIsSound(form: Form, pc: bv32, f: Fields, m: Masks)
    requires !NoInstruction(form)
    ensures Sound(Decoded(form, pc, f, m))
  {
    hide Sound, EffectsOf, ExecuteEcu.Fits, ExecuteEcu.Needs, ExecuteRcu.Fits, ExecuteRcu.Needs, ExecuteMul.Fits, ExecuteMul.Needs, AllInclude,
         Handle,
         FieldsAfter, MasksAfter, NoInstruction, ExecuteEcu.Bound, ExecuteRcu.Bound, ExecuteMul.Bound;
    DecodedFits(form, pc, f, m);
    var e := EffectsOf(form, pc);
    var g, w := FieldsAfter(f, e), MasksAfter(m, e);
    if form.Mul16? || form.Mul32? {
      MulHandled(g);
      ExecuteMul.HandlerSound(g, w);
    } else if form.Rcu16? {
      RcuHandled(g);
      ExecuteRcu.HandlerSound(g, w);
    } else {
      EcuHandled(g);
      ExecuteEcu.HandlerSound(g, w);
    }
  }

  // ---- Packets ----

  /** An instruction of a packet, with what its slot held before. */
  datatype Source = Source(form: Form, f: Fields, m: Masks)

  function Instructions(sources: seq<Source>, pc: bv32): (packet: seq<Instruction>)
    ensures |packet| == |sources|
    ensures forall i :: 0 <= i < |packet| ==> packet[i] == Decoded(sources[i].form, pc, sources[i].f, sources[i].m)
  {
    seq(|sources|, i requires 0 <= i < |sources| => Decoded(sources[i].form, pc, sources[i].f, sources[i].m))
  }

  /** A packet of any decoded instructions, in whatever order they are scheduled: if the dependency words
      show nothing, running it on the live registers is running it on a copy. */
  lemma PacketRunsInPlace(sources: seq<Source>, pc: bv32, m: State)
    requires forall i :: 0 <= i < |sources| ==> !NoInstruction(sources[i].form)
    requires !DependencyPresent(Instructions(sources, pc))
    ensures InPlace(Instructions(sources, pc), m, Reg(m.regs, CC)) == OnCopy(Instructions(sources, pc), m, m.regs, Reg(m.regs, CC))
  {
    hide Decoded, EffectsOf, Sound, DependencyPresent;
    var packet := Instructions(sources, pc);
    forall i | 0 <= i < |packet| ensures Sound(packet[i]) {
      DecodedIsSound(sources[i].form, pc, sources[i].f, sources[i].m);
    }
    InPlaceIsOnCopy(packet, m, Reg(m.regs, CC));
  }
}
