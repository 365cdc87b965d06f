/** Integer conversions of the decoders and handlers. */
module Conversions {
  import opened Words

  function Wide(b: Byte): bv32 { b as bv32 }
  function Widen(x: bv32): bv64 { x as bv64 }
  function Narrow(x: bv32): Byte { (x & 0xFF) as Byte }
  function Low32(x: bv64): bv32 { (x & 0xFFFFFFFF) as bv32 }

  /** Conversion of a signed 32-bit number to 64 bits. */
  function SignExtend(x: bv32): bv64 {
    if x & 0x80000000 != 0 then (x as bv64) | 0xFFFFFFFF00000000 else x as bv64
  }

  lemma LowOfWidened(x: bv32)
    ensures Low32(Widen(x)) == x && Low32(SignExtend(x)) == x
  {
  }
}
