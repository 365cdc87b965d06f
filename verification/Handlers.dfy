/** Numbers of the handlers that the decoders choose from. */
module Handlers {
  // Branches and jumps come in fours: always, always without delay slots, conditional, conditional without.
  const HALT: bv64 := 1
  const BRA: bv64 := 2
  const JMP_INDIRECT: bv64 := 6
  const JSR: bv64 := 10
  const JSR_INDIRECT: bv64 := 14
  const RTI1: bv64 := 18
  const RTI2: bv64 := 20
  const RTS: bv64 := 22

  const DEC_RC1: bv64 := 26
  const DEC_RC0: bv64 := 27
  const DEC_BOTH: bv64 := 28

  // The other register-unit handlers each have a neighbour for when a counter is decremented too.
  const ADDR_IMMEDIATE: bv64 := 29
  const ADDR_SCALAR: bv64 := 31
  const MVR_IMMEDIATE: bv64 := 33
  const MVR_SCALAR: bv64 := 35
  const RANGE: bv64 := 37
  const MODULO: bv64 := 39

  const ADDM: bv64 := 117
  const SUBM: bv64 := 119
  const MUL_SCALAR_ACSHIFT: bv64 := 121
  const MUL_SCALAR_RIGHT: bv64 := 122
  const MUL_SCALAR_LEFT: bv64 := 123
  const MUL_IMMEDIATE_ACSHIFT: bv64 := 124
  const MUL_SCALAR_SCALAR: bv64 := 125
  const MUL_IMMEDIATE_SCALAR: bv64 := 126
  const MUL_IMMEDIATE_RIGHT: bv64 := 127
  const MUL_IMMEDIATE_LEFT: bv64 := 128

  // Where a shift can be immediate or taken from svshift the two are neighbours, immediate first.
  const MUL_SV_SCALAR: bv64 := 130
  const MUL_SV_RU: bv64 := 132
  const MUL_SV_RV: bv64 := 134
  const MUL_SV_VECTOR: bv64 := 136
  const MUL_P_SCALAR: bv64 := 139
  const MUL_P_RU: bv64 := 141
  const MUL_P_RV: bv64 := 143
  const MUL_P_VECTOR: bv64 := 145
  const DOTP_SCALAR: bv64 := 147
  const DOTP_VECTOR: bv64 := 149
}
