/** The record that the decoders fill in, and what one decoded instruction does to it. */
module InstructionEntry {
  import opened Conversions
  import opened Dependencies
  import opened Machine
  import opened Words
  

  // ---- What an instruction does to the record ----

  /** What a dependency word becomes: it stays, it is replaced, or bits are added to it. */
  datatype Update = Keep | Replace(value: bv32) | Merge(mask: bv32)

  function Updated(u: Update, was: bv32): bv32 {
    match u
    case Keep => was
    case Replace(value) => value
    case Merge(mask) => Or(was, mask)
  }

  /** What a field becomes. */
  datatype Field = Leave | Set(value: bv64)

  /** The fields of its own slot that an instruction sets, and the rest of its marks on the packet. */
  datatype Effects = Effects(f0: Field, f1: Field, f2: Field, f3: Field, f4: Field,
                             info: bv32, scalarIn: Update, miscIn: Update, scalarOut: Update, miscOut: Update)

  function Pick(v: Field, was: bv64): bv64 { if v.Set? then v.value else was }

  function FieldsAfter(f: Fields, e: Effects): Fields {
    Fields(Pick(e.f0, f.handler), Pick(e.f1, f.f1), Pick(e.f2, f.f2), Pick(e.f3, f.f3), Pick(e.f4, f.f4))
  }

  function MasksAfter(m: Masks, e: Effects): Masks {
    Masks(Updated(e.scalarIn, m.scalarIn), Updated(e.miscIn, m.miscIn), Updated(e.scalarOut, m.scalarOut), Updated(e.miscOut, m.miscOut))
  }

  lemma Settings()
    ensures forall v, was :: Pick(Set(v), was) == v
    ensures forall was :: Pick(Leave, was) == was
    ensures forall v, was :: Updated(Replace(v), was) == v
    ensures forall was :: Updated(Keep, was) == was
  {
  }

  /** Whatever was in the slot, after decoding an instruction its operands fit its handler, and its words
      include what the handler needs. */
  predicate Truthful(fits: Fields -> bool, needs: Fields -> Masks, f: Fields, m: Masks, e: Effects) {
    fits(FieldsAfter(f, e)) && AllInclude(MasksAfter(m, e), needs(FieldsAfter(f, e)))
  }

  // ---- The record ----

  /** The part of the record that belongs to one unit: five fields and four dependency words. */
  class Slot {
    var handler: bv64
    var f1: bv64
    var f2: bv64
    var f3: bv64
    var f4: bv64
    var scalarIn: bv32
    var miscIn: bv32
    var scalarOut: bv32
    var miscOut: bv32

    function Fields(): Fields
      reads this
    {
      Machine.Fields(handler, f1, f2, f3, f4)
    }

    function Masks(): Masks
      reads this
    {
      Dependencies.Masks(scalarIn, miscIn, scalarOut, miscOut)
    }

    /** The slot has changed by just what an instruction decodes to. */
    twostate predicate Decoded(e: Effects)
      reads this
    {
      && handler == Pick(e.f0, old(handler)) && f1 == Pick(e.f1, old(f1)) && f2 == Pick(e.f2, old(f2))
      && f3 == Pick(e.f3, old(f3)) && f4 == Pick(e.f4, old(f4))
      && scalarIn == Updated(e.scalarIn, old(scalarIn)) && miscIn == Updated(e.miscIn, old(miscIn))
      && scalarOut == Updated(e.scalarOut, old(scalarOut)) && miscOut == Updated(e.miscOut, old(miscOut))
    }

    /** The fields are memory as it comes. */
    constructor ()
      ensures Masks() == Dependencies.Masks(0, 0, 0, 0)
    {
      handler, f1, f2, f3, f4 := *, *, *, *, *;
      scalarIn, miscIn, scalarOut, miscOut := 0, 0, 0, 0;
    }
  }

  class Entry {
    var packetInfo: bv32
    var ecuConditionCode: bv32
    const pcexec: bv32
    const ecu: Slot
    const rcu: Slot
    const alu: Slot
    const mul: Slot
    const mem: Slot

    constructor (pc: bv32)
      ensures pcexec == pc && packetInfo == 0
      ensures fresh(ecu) && fresh(rcu) && fresh(alu) && fresh(mul) && fresh(mem)
      ensures ecu != rcu && ecu != mul && rcu != mul
    {
      packetInfo := 0;
      pcexec := pc;
      ecuConditionCode := *;
      ecu := new Slot();
      rcu := new Slot();
      alu := new Slot();
      mul := new Slot();
      mem := new Slot();
    }
  }
}
