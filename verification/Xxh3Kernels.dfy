/** The scalar and the SSE2 builds of the two lane kernels, and why they are interchangeable. */
module Xxh3Kernels {
  import opened Mixing
  import opened Products
  import opened Words
  import opened Xxh3Stripes

  lemma AddDefinition(x: bv64, y: bv64)
    ensures Add64(x, y) == x + y
  {
  }

  lemma AddSums(x: bv64, y: bv64, z: bv64)
    ensures Add64(x + y, z) == Add64(x + z, y)
  {
  }

  lemma AddReorder(x: bv64, y: bv64, z: bv64)
    ensures Add64(Add64(x, y), z) == Add64(Add64(x, z), y)
  {
    hide Add64;
    AddDefinition(x, y);
    AddDefinition(x, z);
    AddSums(x, y, z);
  }

  function Lane(s: Bytes, i: nat): bv64
    requires 8 * i + 8 <= |s|
  {
    ReadLE64(s[8 * i..8 * i + 8])
  }

  function Partner(i: nat): (j: nat)
    ensures i < 8 ==> j < 8
    ensures j != i
  {
    if i % 2 == 0 then i + 1 else i - 1
  }

  /** What a lane gains of its own: the product of the halves of its keyed word. */
  function KeyedProduct(stripe: Stripe, key: Stripe, i: nat): bv64
    requires i < 8
  {
    var dataKey := Xor64(Lane(stripe, i), Lane(key, i));
    Mult32To64(dataKey, HighHalf(dataKey))
  }

  /** A lane gains its neighbour's word and its own product. */
  function NewLane(was: bv64, stripe: Stripe, key: Stripe, i: nat): bv64
    requires i < 8
  {
    Add64(Add64(was, Lane(stripe, Partner(i))), KeyedProduct(stripe, key, i))
  }

  /** One stripe, all lanes at once. */
  function AccumulateLanes(acc: Acc, stripe: Stripe, key: Stripe): Acc {
    seq(8, i requires 0 <= i < 8 => NewLane(acc[i], stripe, key, i))
  }

  function ShiftRight47(x: bv64): bv64 { x >> 47 }
  function XorShift47(x: bv64): bv64 { Xor64(x, ShiftRight47(x)) }
  function TimesPrime32(x: bv64): bv64 { x * 0x9E3779B1 }

  function ScrambleLanes(acc: Acc, key: Stripe): Acc {
    seq(8, i requires 0 <= i < 8 => TimesPrime32(Xor64(XorShift47(acc[i]), Lane(key, i))))
  }

  /** The kernels as function values. */
  function LaneKernel(): Kernel {
    Kernel((acc: Acc, stripe: Stripe, key: Stripe) => AccumulateLanes(acc, stripe, key),
           (acc: Acc, key: Stripe) => ScrambleLanes(acc, key))
  }

  // ---- Scalar build: in place, one lane after the other ----

  method ScalarRound(acc: array<bv64>, input: Stripe, secret: Stripe, lane: nat)
    requires acc.Length == 8 && lane < 8
    modifies acc
    ensures acc[Partner(lane)] == Add64(old(acc[Partner(lane)]), Lane(input, lane))
    ensures acc[lane] == Add64(KeyedProduct(input, secret, lane), old(acc[lane]))
    ensures forall j :: 0 <= j < 8 && j != lane && j != Partner(lane) ==> acc[j] == old(acc[j])
  {
    hide ReadLE64, Xor64, Add64, Mult32To64, HighHalf;
    var dataVal := Lane(input, lane);
    var dataKey := Xor64(dataVal, Lane(secret, lane));
    var swapped := Partner(lane); // lane ^ 1
    acc[swapped] := Add64(acc[swapped], dataVal);
    acc[lane] := Add64(Mult32To64(dataKey, HighHalf(dataKey)), acc[lane]);
  }

  /** A lane after the first n scalar rounds: what has reached it depends on which of the two rounds have run. */
  ghost function AfterRounds(was: bv64, stripe: Stripe, key: Stripe, j: nat, n: nat): bv64
    requires j < 8
  {
    var own := KeyedProduct(stripe, key, j);
    var other := Lane(stripe, Partner(j));
    if j < n && Partner(j) < n then (if j < Partner(j) then Add64(Add64(own, was), other) else Add64(own, Add64(was, other)))
    else if j < n then Add64(own, was)
    else if Partner(j) < n then Add64(was, other)
    else was
  }

  /** Once both rounds have run their order no longer shows. */
  lemma AllRounds(was: bv64, stripe: Stripe, key: Stripe, j: nat)
    requires j < 8
    ensures AfterRounds(was, stripe, key, j, 8) == NewLane(was, stripe, key, j)
  {
    hide Lane, Add64, KeyedProduct;
    var own, other := KeyedProduct(stripe, key, j), Lane(stripe, Partner(j));
    AddReorder(was, own, other);
    AddSwaps64(own, was);
    AddSwaps64(own, Add64(was, other));
  }

  lemma OneRound(was: bv64, stripe: Stripe, key: Stripe, j: nat, i: nat)
    requires j < 8 && i < 8
    ensures AfterRounds(was, stripe, key, j, 0) == was
    ensures AfterRounds(was, stripe, key, j, i + 1)
            == var before := AfterRounds(was, stripe, key, j, i);
               if j == i then Add64(KeyedProduct(stripe, key, j), before)
               else if j == Partner(i) then Add64(before, Lane(stripe, i))
               else before
  {
    hide Lane, Add64, KeyedProduct;
  }

  method AccumulateScalar(acc: array<bv64>, input: Stripe, secret: Stripe)
    requires acc.Length == 8
    modifies acc
    ensures acc[..] == AccumulateLanes(old(acc[..]), input, secret)
  {
    hide Lane, Add64, KeyedProduct, NewLane, AfterRounds, Partner;
    ghost var was := acc[..];
    forall j | 0 <= j < 8 { OneRound(was[j], input, secret, j, 0); }
    for i := 0 to 8
      invariant forall j :: 0 <= j < 8 ==> acc[j] == AfterRounds(was[j], input, secret, j, i)
    {
      forall j | 0 <= j < 8 { OneRound(was[j], input, secret, j, i); }
      ScalarRound(acc, input, secret, i);
    }
    forall j | 0 <= j < 8
      ensures acc[j] == NewLane(was[j], input, secret, j)
    {
      AllRounds(was[j], input, secret, j);
    }
  }

  method ScrambleScalar(acc: array<bv64>, secret: Stripe)
    requires acc.Length == 8
    modifies acc
    ensures acc[..] == ScrambleLanes(old(acc[..]), secret)
  {
    hide Lane, XorShift47, Xor64, TimesPrime32;
    for i := 0 to 8
      invariant forall j :: i <= j < 8 ==> acc[j] == old(acc[j])
      invariant forall j :: 0 <= j < i ==> acc[j] == ScrambleLanes(old(acc[..]), secret)[j]
    {
      var acc64 := XorShift47(acc[i]);
      acc64 := Xor64(acc64, Lane(secret, i));
      acc[i] := TimesPrime32(acc64);
    }
  }

  // ---- SSE2 build: two 64-bit lanes, or four 32-bit lanes, to a register ----

  datatype M128 = M128(lo: bv64, hi: bv64)

  function Half(v: M128, i: nat): bv64
    requires i < 4
  {
    if i == 0 then LowHalf(v.lo) else if i == 1 then HighHalf(v.lo)
    else if i == 2 then LowHalf(v.hi) else HighHalf(v.hi)
  }

  function Join(low: bv64, high: bv64): bv64 { low | (high << 32) }

  function MmXor(a: M128, b: M128): M128 { M128(Xor64(a.lo, b.lo), Xor64(a.hi, b.hi)) }
  function MmAddEpi64(a: M128, b: M128): M128 { M128(Add64(a.lo, b.lo), Add64(a.hi, b.hi)) }

  /** Both 64-bit lanes' low halves multiplied. */
  function MmMulEpu32(a: M128, b: M128): M128 { M128(Mult32To64(a.lo, b.lo), Mult32To64(a.hi, b.hi)) }

  /** _mm_shuffle_epi32 with _MM_SHUFFLE(z, y, x, w): 32-bit lanes picked w first. */
  function MmShuffleEpi32(a: M128, z: nat, y: nat, x: nat, w: nat): M128
    requires z < 4 && y < 4 && x < 4 && w < 4
  {
    M128(Join(Half(a, w), Half(a, x)), Join(Half(a, y), Half(a, z)))
  }

  function MmSrliEpi64By47(a: M128): M128 { M128(ShiftRight47(a.lo), ShiftRight47(a.hi)) }
  function MmSlliEpi64By32(a: M128): M128 { M128(ShiftLeft32(a.lo), ShiftLeft32(a.hi)) }

  function MmLoad(s: Bytes, i: nat): M128
    requires 16 * i + 16 <= |s|
  {
    M128(Lane(s, 2 * i), Lane(s, 2 * i + 1))
  }

  /** The multiplier reads low halves only, so what a shuffle puts above them is lost. */
  lemma LowOfJoin(x: bv64, low: bv64, high: bv64)
    ensures Mult32To64(x, Join(low, high)) == Mult32To64(x, low)
    ensures Mult32To64(Join(low, high), x) == Mult32To64(low, x)
  {
    hide Join, Mult32To64;
    JoinLow(low, high);
    MultMasks(x, Join(low, high));
    MultMasks(x, low);
  }

  lemma JoinLow(low: bv64, high: bv64)
    ensures LowHalf(Join(low, high)) == LowHalf(low)
  {
  }

  lemma MultMasks(x: bv64, y: bv64)
    ensures Mult32To64(x, y) == Mult32To64(x, LowHalf(y))
    ensures Mult32To64(y, x) == Mult32To64(LowHalf(y), x)
  {
    assert Mult32To64(x, y & 0xFFFFFFFF) == Mult32To64(x, y);
    assert Mult32To64(y & 0xFFFFFFFF, x) == Mult32To64(y, x);
  }

  lemma HalvesMakeWord(x: bv64)
    ensures Join(LowHalf(x), HighHalf(x)) == x
  {
    assert Join(x & 0xFFFFFFFF, x >> 32) == x;
  }

  /** The shuffle that brings each lane's high half down feeds the multiplier what the scalar shift does. */
  lemma ShuffledProduct(v: M128, w: M128)
    ensures MmMulEpu32(w, MmShuffleEpi32(v, 0, 3, 0, 1))
            == M128(Mult32To64(w.lo, HighHalf(v.lo)), Mult32To64(w.hi, HighHalf(v.hi)))
    ensures MmMulEpu32(MmShuffleEpi32(v, 0, 3, 0, 1), w)
            == M128(Mult32To64(HighHalf(v.lo), w.lo), Mult32To64(HighHalf(v.hi), w.hi))
  {
    hide Join, Mult32To64, LowHalf, HighHalf;
    LowOfJoin(w.lo, HighHalf(v.lo), LowHalf(v.lo));
    LowOfJoin(w.hi, HighHalf(v.hi), LowHalf(v.lo));
  }

  lemma SwappedLanes(v: M128)
    ensures MmShuffleEpi32(v, 1, 0, 3, 2) == M128(v.hi, v.lo)
  {
    hide Join, LowHalf, HighHalf;
    HalvesMakeWord(v.lo);
    HalvesMakeWord(v.hi);
  }

  /** One vector of the accumulate loop is two lanes of the reference. */
  method AccumulateVector(xacc: M128, dataVec: M128, keyVec: M128) returns (r: M128)
    ensures var dataKey := MmXor(dataVec, keyVec);
            r == M128(Add64(Add64(xacc.lo, dataVec.hi), Mult32To64(dataKey.lo, HighHalf(dataKey.lo))),
                      Add64(Add64(xacc.hi, dataVec.lo), Mult32To64(dataKey.hi, HighHalf(dataKey.hi))))
  {
    hide Xor64, Add64, Mult32To64, HighHalf, MmShuffleEpi32;
    var dataKey := MmXor(dataVec, keyVec);
    var dataKeyLo := MmShuffleEpi32(dataKey, 0, 3, 0, 1);
    var product := MmMulEpu32(dataKey, dataKeyLo);
    var dataSwap := MmShuffleEpi32(dataVec, 1, 0, 3, 2);
    var sum := MmAddEpi64(xacc, dataSwap);
    r := MmAddEpi64(product, sum);
    ShuffledProduct(dataKey, dataKey);
    SwappedLanes(dataVec);
    AddSwaps64(product.lo, sum.lo);
    AddSwaps64(product.hi, sum.hi);
  }

  lemma NewLanePair(acc: M128, stripe: Stripe, key: Stripe, i: nat)
    requires i < 4
    ensures var data, k := MmLoad(stripe, i), MmXor(MmLoad(stripe, i), MmLoad(key, i));
            && NewLane(acc.lo, stripe, key, 2 * i) == Add64(Add64(acc.lo, data.hi), Mult32To64(k.lo, HighHalf(k.lo)))
            && NewLane(acc.hi, stripe, key, 2 * i + 1) == Add64(Add64(acc.hi, data.lo), Mult32To64(k.hi, HighHalf(k.hi)))
  {
    hide Lane, Xor64, Add64, Mult32To64, HighHalf;
    assert Partner(2 * i) == 2 * i + 1 && Partner(2 * i + 1) == 2 * i;
  }

  /** One round of the loop: a pair of lanes. */
  method AccumulatePair(acc: array<bv64>, input: Stripe, secret: Stripe, i: nat)
    requires acc.Length == 8 && i < 4
    modifies acc
    ensures acc[2 * i] == NewLane(old(acc[2 * i]), input, secret, 2 * i)
    ensures acc[2 * i + 1] == NewLane(old(acc[2 * i + 1]), input, secret, 2 * i + 1)
    ensures forall j :: 0 <= j < 8 && j != 2 * i && j != 2 * i + 1 ==> acc[j] == old(acc[j])
  {
    hide Lane, Xor64, Add64, Mult32To64, HighHalf, NewLane, MmLoad;
    var a := M128(acc[2 * i], acc[2 * i + 1]);
    NewLanePair(a, input, secret, i);
    var xacc := AccumulateVector(a, MmLoad(input, i), MmLoad(secret, i));
    acc[2 * i], acc[2 * i + 1] := xacc.lo, xacc.hi;
  }

  method AccumulateSse2(acc: array<bv64>, input: Stripe, secret: Stripe)
    requires acc.Length == 8
    modifies acc
    ensures acc[..] == AccumulateLanes(old(acc[..]), input, secret)
  {
    hide NewLane;
    for i := 0 to 4
      invariant forall j :: 2 * i <= j < 8 ==> acc[j] == old(acc[j])
      invariant forall j :: 0 <= j < 2 * i ==> acc[j] == NewLane(old(acc[j]), input, secret, j)
    {
      AccumulatePair(acc, input, secret, i);
    }
  }

  function TimesTwo32(x: bv64): bv64 { x * 0x1_0000_0000 }

  /** The two half-width products make the full one: x * P == lo * P + (hi * P << 32) mod 2^64. */
  lemma SplitProduct(x: bv64)
    ensures TimesPrime32(x) == Add64(Mult32To64(x, 0x9E3779B1), ShiftLeft32(Mult32To64(HighHalf(x), 0x9E3779B1)))
  {
    hide Add64, TimesPrime32, Mult32To64, LowHalf, HighHalf, ShiftLeft32, TimesTwo32, Join;
    var lo, hi := LowHalf(x), HighHalf(x);
    HalvesMakeWord(x);
    SplitSum(x);
    HalfProducts(x);
    SplitProductOfHalves(lo, hi);
    ShiftIsProduct(TimesPrime32(hi));
  }

  lemma SplitSum(x: bv64)
    ensures Add64(LowHalf(x), TimesTwo32(HighHalf(x))) == x
  {
    assert Add64(x & 0xFFFFFFFF, (x >> 32) * 0x1_0000_0000) == x;
    assert TimesTwo32(x >> 32) == (x >> 32) * 0x1_0000_0000;
  }

  lemma HalfProducts(x: bv64)
    ensures Mult32To64(x, 0x9E3779B1) == TimesPrime32(LowHalf(x))
    ensures Mult32To64(HighHalf(x), 0x9E3779B1) == TimesPrime32(HighHalf(x))
  {
    assert Mult32To64(x, 0x9E3779B1) == TimesPrime32(x & 0xFFFFFFFF);
    assert Mult32To64(x >> 32, 0x9E3779B1) == TimesPrime32(x >> 32);
  }

  lemma SplitProductOfHalves(lo: bv64, hi: bv64)
    ensures TimesPrime32(Add64(lo, TimesTwo32(hi))) == Add64(TimesPrime32(lo), TimesTwo32(TimesPrime32(hi)))
  {
    assert TimesPrime32(lo + hi * 0x1_0000_0000) == Add64(lo * 0x9E3779B1, hi * 0x9E3779B1 * 0x1_0000_0000);
    assert Add64(lo, hi * 0x1_0000_0000) == lo + hi * 0x1_0000_0000;
    assert TimesTwo32(hi * 0x9E3779B1) == hi * 0x9E3779B1 * 0x1_0000_0000;
  }

  lemma ShiftIsProduct(x: bv64)
    ensures ShiftLeft32(x) == TimesTwo32(x)
  {
  }

  method ScrambleVector(accVec: M128, keyVec: M128) returns (r: M128)
    ensures r == M128(TimesPrime32(Xor64(XorShift47(accVec.lo), keyVec.lo)),
                      TimesPrime32(Xor64(XorShift47(accVec.hi), keyVec.hi)))
  {
    hide Mult32To64, TimesPrime32, Add64, Xor64, ShiftRight47, ShiftLeft32, HighHalf, MmShuffleEpi32;
    var prime32 := M128(0x9E3779B1, 0x9E3779B1); // the low half of each lane is all that is multiplied
    var shifted := MmSrliEpi64By47(accVec);
    var dataVec := MmXor(accVec, shifted);
    var dataKey := MmXor(dataVec, keyVec);
    var dataKeyHi := MmShuffleEpi32(dataKey, 0, 3, 0, 1);
    var prodLo := MmMulEpu32(dataKey, prime32);
    var prodHi := MmMulEpu32(dataKeyHi, prime32);
    r := MmAddEpi64(prodLo, MmSlliEpi64By32(prodHi));
    ShuffledProduct(dataKey, prime32);
    SplitProduct(dataKey.lo);
    SplitProduct(dataKey.hi);
  }

  method ScrambleSse2(acc: array<bv64>, secret: Stripe)
    requires acc.Length == 8
    modifies acc
    ensures acc[..] == ScrambleLanes(old(acc[..]), secret)
  {
    hide Lane, Xor64, XorShift47, TimesPrime32;
    for i := 0 to 4
      invariant forall j :: 2 * i <= j < 8 ==> acc[j] == old(acc[j])
      invariant forall j :: 0 <= j < 2 * i ==> acc[j] == ScrambleLanes(old(acc[..]), secret)[j]
    {
      var xacc := ScrambleVector(M128(acc[2 * i], acc[2 * i + 1]), MmLoad(secret, i));
      acc[2 * i], acc[2 * i + 1] := xacc.lo, xacc.hi;
    }
  }

  /** Either build folds any number of stripes to the same lanes as the reference kernel: here the scalar one... */
  method AccumulateAllScalar(acc: array<bv64>, input: Bytes, secret: Bytes, nbStripes: nat)
    requires acc.Length == 8
    requires 64 * nbStripes <= |input| && (nbStripes > 0 ==> 8 * (nbStripes - 1) + 64 <= |secret|)
    modifies acc
    ensures acc[..] == Fold(LaneKernel(), old(acc[..]), input, secret, nbStripes)
  {
    hide AccumulateLanes;
    for n := 0 to nbStripes
      invariant acc[..] == Fold(LaneKernel(), old(acc[..]), input, secret, n)
    {
      AccumulateScalar(acc, StripeAt(input, n), secret[8 * n..8 * n + 64]);
    }
  }

  /** ... and here the vector one. */
  method AccumulateAllSse2(acc: array<bv64>, input: Bytes, secret: Bytes, nbStripes: nat)
    requires acc.Length == 8
    requires 64 * nbStripes <= |input| && (nbStripes > 0 ==> 8 * (nbStripes - 1) + 64 <= |secret|)
    modifies acc
    ensures acc[..] == Fold(LaneKernel(), old(acc[..]), input, secret, nbStripes)
  {
    hide AccumulateLanes;
    for n := 0 to nbStripes
      invariant acc[..] == Fold(LaneKernel(), old(acc[..]), input, secret, n)
    {
      AccumulateSse2(acc, StripeAt(input, n), secret[8 * n..8 * n + 64]);
    }
  }
}
