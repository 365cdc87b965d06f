/** Dependency words: which registers and flags an instruction reads and writes. */
module Dependencies {
  import opened Words

  // Bit k of a word for the other registers stands for register 33 + k; from bit 15 on come the flags.
  const MASK_RC0: bv32 := 0x00000001
  const MASK_RC1: bv32 := 0x00000002
  const MASK_RU: bv32 := 0x00000010
  const MASK_RV: bv32 := 0x00000020
  const MASK_RZ: bv32 := 0x00000040
  const MASK_RZI1: bv32 := 0x00000080
  const MASK_RZI2: bv32 := 0x00000100
  const MASK_UVCTL: bv32 := 0x00000400
  const MASK_XYRANGE: bv32 := 0x00000800
  const MASK_UVRANGE: bv32 := 0x00001000
  const MASK_ACSHIFT: bv32 := 0x00002000
  const MASK_SVSHIFT: bv32 := 0x00004000
  const FLAG_Z: bv32 := 0x00008000
  const FLAG_C: bv32 := 0x00010000
  const FLAG_V: bv32 := 0x00020000
  const FLAG_N: bv32 := 0x00040000
  const FLAG_MV: bv32 := 0x00080000
  const FLAG_C0Z: bv32 := 0x00100000
  const FLAG_C1Z: bv32 := 0x00200000
  const FLAG_MODGE: bv32 := 0x00400000
  const FLAG_MODMI: bv32 := 0x00800000
  const FLAG_CP0: bv32 := 0x01000000
  const FLAG_CP1: bv32 := 0x02000000

  function ScalarMask(r: bv32): bv32 { 1 << ((r & 0x1F) as bv6) }
  function PixelMask(r: bv32): bv32 { 7 << ((r & 0x1F) as bv6) }
  function VectorMask(r: bv32): bv32 { 15 << ((r & 0x1F) as bv6) }
  function IndexMask(r: bv32): bv32 { 4 << ((r & 0x03) as bv6) }

  function Or(x: bv32, y: bv32): bv32 { x | y }

  predicate Has(mask: bv32, r: bv32) { (mask >> ((r & 0x1F) as bv6)) & 1 == 1 }

  /** Registers 0 to 31 are the scalars, 32 holds the flags, the others have special uses. */
  predicate Covered(scalar: bv32, misc: bv32, r: bv32) {
    if r < 32 then Has(scalar, r) else 33 <= r < 48 && Has(misc, r - 33)
  }

  lemma OrAssociates(x: bv32, y: bv32, z: bv32)
    ensures Or(Or(x, y), z) == Or(x, Or(y, z))
  {
  }

  lemma HasScalar(r: bv32)
    requires r < 32
    ensures Has(ScalarMask(r), r)
  {
  }

  lemma HasPixel(r: bv32)
    requires r < 32 && r & 3 == 0
    ensures Has(PixelMask(r), r) && Has(PixelMask(r), r + 1) && Has(PixelMask(r), r + 2)
  {
  }

  lemma HasVector(r: bv32)
    requires r < 32 && r & 3 == 0
    ensures Has(VectorMask(r), r) && Has(VectorMask(r), r + 1) && Has(VectorMask(r), r + 2) && Has(VectorMask(r), r + 3)
  {
  }

  lemma OrNothing(x: bv32)
    ensures Or(x, 0) == x && Or(0, x) == x
  {
  }

  /** One word says at least what another says. */
  predicate Includes(mask: bv32, part: bv32) { mask & part == part }

  datatype Masks = Masks(scalarIn: bv32, miscIn: bv32, scalarOut: bv32, miscOut: bv32)

  predicate AllInclude(masks: Masks, needs: Masks) {
    Includes(masks.scalarIn, needs.scalarIn) && Includes(masks.miscIn, needs.miscIn)
    && Includes(masks.scalarOut, needs.scalarOut) && Includes(masks.miscOut, needs.miscOut)
  }

  lemma NothingIncluded(mask: bv32)
    ensures Includes(mask, 0) && Includes(mask, mask)
  {
  }

  lemma IncludesEither(x: bv32, y: bv32)
    ensures Includes(x, x) && Includes(x, 0) && Includes(Or(x, y), x) && Includes(Or(x, y), y)
  {
  }

  lemma IncludedHas(mask: bv32, part: bv32, r: bv32)
    requires Includes(mask, part) && Has(part, r)
    ensures Has(mask, r)
  {
  }

  lemma IncludesThrough(mask: bv32, middle: bv32, part: bv32)
    requires Includes(mask, middle) && Includes(middle, part)
    ensures Includes(mask, part)
  {
    assert mask & part == mask & (middle & part) == (mask & middle) & part;
  }

  lemma IncludesParts(mask: bv32, x: bv32, y: bv32)
    requires Includes(mask, Or(x, y))
    ensures Includes(mask, x) && Includes(mask, y)
  {
    hide Includes, Or;
    IncludesEither(x, y);
    IncludesThrough(mask, Or(x, y), x);
    IncludesThrough(mask, Or(x, y), y);
  }

  lemma IncludesBoth(mask: bv32, x: bv32, y: bv32)
    requires Includes(mask, x) && Includes(mask, y)
    ensures Includes(mask, Or(x, y))
  {
    assert mask & (x | y) == (mask & x) | (mask & y);
  }
}
