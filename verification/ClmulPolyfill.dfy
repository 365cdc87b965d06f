/** The 64x64->128 carry-less multiply of ARMv7: eight vector products of bytes, folded and shifted into place. */
module ClmulPolyfill {
  import opened Clmul

  // ---- The vector operations ----

  /** Eight 16-bit lanes, the lowest first. */
  function Lanes(l0: bv16, l1: bv16, l2: bv16, l3: bv16, l4: bv16, l5: bv16, l6: bv16, l7: bv16): Vector {
    (l0 as bv128) | ((l1 as bv128) << 16) | ((l2 as bv128) << 32) | ((l3 as bv128) << 48)
    | ((l4 as bv128) << 64) | ((l5 as bv128) << 80) | ((l6 as bv128) << 96) | ((l7 as bv128) << 112)
  }

  function Low(v: Vector): bv64 { (v & 0xFFFF_FFFF_FFFF_FFFF) as bv64 }
  function High(v: Vector): bv64 { (v >> 64) as bv64 }
  function Combine(lo: bv64, hi: bv64): Vector { (lo as bv128) | ((hi as bv128) << 64) }
  function And128(v: Vector, w: Vector): Vector { v & w }

  /** vmull_p8: lane i is the product of the bytes i. */
  function VmullP8(a: bv64, b: bv64): Vector {
    Lanes(Pmull8(ByteAt(a, 0), ByteAt(b, 0)), Pmull8(ByteAt(a, 1), ByteAt(b, 1)), Pmull8(ByteAt(a, 2), ByteAt(b, 2)), Pmull8(ByteAt(a, 3), ByteAt(b, 3)),
          Pmull8(ByteAt(a, 4), ByteAt(b, 4)), Pmull8(ByteAt(a, 5), ByteAt(b, 5)), Pmull8(ByteAt(a, 6), ByteAt(b, 6)), Pmull8(ByteAt(a, 7), ByteAt(b, 7)))
  }

  /** vext_p8 of a vector with itself: the bytes turned down by n. */
  function VextP8By1(b: bv64): bv64 { (b >> 8) | (b << 56) }
  function VextP8By2(b: bv64): bv64 { (b >> 16) | (b << 48) }
  function VextP8By3(b: bv64): bv64 { (b >> 24) | (b << 40) }
  function VextP8By4(b: bv64): bv64 { (b >> 32) | (b << 32) }

  /** vextq_u8 of a vector with itself by 16 - n: the bytes turned up by n. */
  function VextqBy15(t: Vector): Vector { (t << 8) | (t >> 120) }
  function VextqBy14(t: Vector): Vector { (t << 16) | (t >> 112) }
  function VextqBy13(t: Vector): Vector { (t << 24) | (t >> 104) }
  function VextqBy12(t: Vector): Vector { (t << 32) | (t >> 96) }

  /** Two vectors of cross products whose upper lanes wrap around: the mask says which of them stay,
      the others go to the lower half. */
  function FoldPair(l: Vector, m: Vector, mask: Vector): (Vector, Vector) {
    var p0 := Combine(Low(l), Low(m));
    var p1 := Combine(High(l), High(m));
    var tmp := Xor128(p0, p1);
    var h := And128(p1, mask);
    var lo := Xor128(tmp, h);
    (Combine(Low(lo), Low(h)), Combine(High(lo), High(h)))
  }

  function VmullP64(a: bv64, b: bv64): Vector {
    var k48_32 := Combine(0x0000ffffffffffff, 0x00000000ffffffff);
    var k16_00 := Combine(0x000000000000ffff, 0x0000000000000000);
    var d := VmullP8(a, b);
    var e := VmullP8(a, VextP8By1(b));
    var f := VmullP8(VextP8By1(a), b);
    var g := VmullP8(a, VextP8By2(b));
    var h := VmullP8(VextP8By2(a), b);
    var i := VmullP8(a, VextP8By3(b));
    var j := VmullP8(VextP8By3(a), b);
    var k := VmullP8(a, VextP8By4(b));
    var l := Xor128(e, f);
    var m := Xor128(g, h);
    var n := Xor128(i, j);
    var (t0, t1) := FoldPair(l, m, k48_32);
    var (t2, t3) := FoldPair(n, k, k16_00);
    var cross1 := Xor128(VextqBy15(t0), VextqBy14(t1));
    var cross2 := Xor128(VextqBy13(t2), VextqBy12(t3));
    var mix := Xor128(d, cross1);
    Xor128(mix, cross2)
  }

  // ---- Lanes through the vector operations ----

  lemma LanesXor(l0: bv16, l1: bv16, l2: bv16, l3: bv16, l4: bv16, l5: bv16, l6: bv16, l7: bv16, m0: bv16, m1: bv16, m2: bv16, m3: bv16, m4: bv16, m5: bv16, m6: bv16, m7: bv16)
    ensures Xor128(Lanes(l0, l1, l2, l3, l4, l5, l6, l7), Lanes(m0, m1, m2, m3, m4, m5, m6, m7))
            == Lanes(Xor16(l0, m0), Xor16(l1, m1), Xor16(l2, m2), Xor16(l3, m3), Xor16(l4, m4), Xor16(l5, m5), Xor16(l6, m6), Xor16(l7, m7))
  {
  }

  lemma Turned1(b: bv64)
    ensures ByteAt(VextP8By1(b), 0) == ByteAt(b, 1)
    ensures ByteAt(VextP8By1(b), 1) == ByteAt(b, 2)
    ensures ByteAt(VextP8By1(b), 2) == ByteAt(b, 3)
    ensures ByteAt(VextP8By1(b), 3) == ByteAt(b, 4)
    ensures ByteAt(VextP8By1(b), 4) == ByteAt(b, 5)
    ensures ByteAt(VextP8By1(b), 5) == ByteAt(b, 6)
    ensures ByteAt(VextP8By1(b), 6) == ByteAt(b, 7)
    ensures ByteAt(VextP8By1(b), 7) == ByteAt(b, 0)
  {
  }

  lemma Turned2(b: bv64)
    ensures ByteAt(VextP8By2(b), 0) == ByteAt(b, 2)
    ensures ByteAt(VextP8By2(b), 1) == ByteAt(b, 3)
    ensures ByteAt(VextP8By2(b), 2) == ByteAt(b, 4)
    ensures ByteAt(VextP8By2(b), 3) == ByteAt(b, 5)
    ensures ByteAt(VextP8By2(b), 4) == ByteAt(b, 6)
    ensures ByteAt(VextP8By2(b), 5) == ByteAt(b, 7)
    ensures ByteAt(VextP8By2(b), 6) == ByteAt(b, 0)
    ensures ByteAt(VextP8By2(b), 7) == ByteAt(b, 1)
  {
  }

  lemma Turned3(b: bv64)
    ensures ByteAt(VextP8By3(b), 0) == ByteAt(b, 3)
    ensures ByteAt(VextP8By3(b), 1) == ByteAt(b, 4)
    ensures ByteAt(VextP8By3(b), 2) == ByteAt(b, 5)
    ensures ByteAt(VextP8By3(b), 3) == ByteAt(b, 6)
    ensures ByteAt(VextP8By3(b), 4) == ByteAt(b, 7)
    ensures ByteAt(VextP8By3(b), 5) == ByteAt(b, 0)
    ensures ByteAt(VextP8By3(b), 6) == ByteAt(b, 1)
    ensures ByteAt(VextP8By3(b), 7) == ByteAt(b, 2)
  {
  }

  lemma Turned4(b: bv64)
    ensures ByteAt(VextP8By4(b), 0) == ByteAt(b, 4)
    ensures ByteAt(VextP8By4(b), 1) == ByteAt(b, 5)
    ensures ByteAt(VextP8By4(b), 2) == ByteAt(b, 6)
    ensures ByteAt(VextP8By4(b), 3) == ByteAt(b, 7)
    ensures ByteAt(VextP8By4(b), 4) == ByteAt(b, 0)
    ensures ByteAt(VextP8By4(b), 5) == ByteAt(b, 1)
    ensures ByteAt(VextP8By4(b), 6) == ByteAt(b, 2)
    ensures ByteAt(VextP8By4(b), 7) == ByteAt(b, 3)
  {
  }

  // ---- Folding, half by half ----

  function XorHalf(x: bv64, y: bv64): bv64 { x ^ y }
  function AndHalf(x: bv64, y: bv64): bv64 { x & y }
  function Four(l0: bv16, l1: bv16, l2: bv16, l3: bv16): bv64 {
    (l0 as bv64) | ((l1 as bv64) << 16) | ((l2 as bv64) << 32) | ((l3 as bv64) << 48)
  }

  lemma HalvesOfLanes(l0: bv16, l1: bv16, l2: bv16, l3: bv16, l4: bv16, l5: bv16, l6: bv16, l7: bv16)
    ensures Low(Lanes(l0, l1, l2, l3, l4, l5, l6, l7)) == Four(l0, l1, l2, l3)
    ensures High(Lanes(l0, l1, l2, l3, l4, l5, l6, l7)) == Four(l4, l5, l6, l7)
  {
  }

  lemma LanesOfHalves(l0: bv16, l1: bv16, l2: bv16, l3: bv16, l4: bv16, l5: bv16, l6: bv16, l7: bv16)
    ensures Combine(Four(l0, l1, l2, l3), Four(l4, l5, l6, l7)) == Lanes(l0, l1, l2, l3, l4, l5, l6, l7)
  {
  }

  lemma HalvesOfPair(lo: bv64, hi: bv64)
    ensures Low(Combine(lo, hi)) == lo && High(Combine(lo, hi)) == hi
  {
  }

  lemma HalvesOfXor(x: Vector, y: Vector)
    ensures Low(Xor128(x, y)) == XorHalf(Low(x), Low(y)) && High(Xor128(x, y)) == XorHalf(High(x), High(y))
  {
  }

  lemma HalvesOfAnd(x: Vector, y: Vector)
    ensures Low(And128(x, y)) == AndHalf(Low(x), Low(y)) && High(And128(x, y)) == AndHalf(High(x), High(y))
  {
  }

  lemma FoldHalves(l: Vector, m: Vector, lo: bv64, hi: bv64)
    ensures var (a, b) := (AndHalf(High(l), lo), AndHalf(High(m), hi));
            FoldPair(l, m, Combine(lo, hi)) == (Combine(XorHalf(XorHalf(Low(l), High(l)), a), a), Combine(XorHalf(XorHalf(Low(m), High(m)), b), b))
  {
    hide Low, High, Combine, Xor128, And128, XorHalf, AndHalf;
    var p0, p1 := Combine(Low(l), Low(m)), Combine(High(l), High(m));
    HalvesOfPair(Low(l), Low(m));
    HalvesOfPair(High(l), High(m));
    HalvesOfPair(lo, hi);
    HalvesOfXor(p0, p1);
    HalvesOfAnd(p1, Combine(lo, hi));
    HalvesOfXor(Xor128(p0, p1), And128(p1, Combine(lo, hi)));
  }

  lemma FourXor(l0: bv16, l1: bv16, l2: bv16, l3: bv16, m0: bv16, m1: bv16, m2: bv16, m3: bv16)
    ensures XorHalf(Four(l0, l1, l2, l3), Four(m0, m1, m2, m3)) == Four(Xor16(l0, m0), Xor16(l1, m1), Xor16(l2, m2), Xor16(l3, m3))
  {
  }

  lemma Kept3(l0: bv16, l1: bv16, l2: bv16, l3: bv16)
    ensures AndHalf(Four(l0, l1, l2, l3), 0x0000ffffffffffff) == Four(l0, l1, l2, 0)
  {
  }

  lemma Kept2(l0: bv16, l1: bv16, l2: bv16, l3: bv16)
    ensures AndHalf(Four(l0, l1, l2, l3), 0x00000000ffffffff) == Four(l0, l1, 0, 0)
  {
  }

  lemma Kept1(l0: bv16, l1: bv16, l2: bv16, l3: bv16)
    ensures AndHalf(Four(l0, l1, l2, l3), 0x000000000000ffff) == Four(l0, 0, 0, 0)
  {
  }

  lemma Kept0(l0: bv16, l1: bv16, l2: bv16, l3: bv16)
    ensures AndHalf(Four(l0, l1, l2, l3), 0x0000000000000000) == Four(0, 0, 0, 0)
  {
  }

  lemma XorAgain(x: bv16, y: bv16)
    ensures Xor16(Xor16(x, y), y) == x && Xor16(x, 0) == x
  {
  }

  /** A half that is folded onto the other, but for the lanes that the mask keeps. */
  lemma FoldedHalf(l0: bv16, l1: bv16, l2: bv16, l3: bv16, l4: bv16, l5: bv16, l6: bv16, l7: bv16, k4: bv16, k5: bv16, k6: bv16, k7: bv16)
    ensures XorHalf(XorHalf(Four(l0, l1, l2, l3), Four(l4, l5, l6, l7)), Four(k4, k5, k6, k7))
            == Four(Xor16(Xor16(l0, l4), k4), Xor16(Xor16(l1, l5), k5), Xor16(Xor16(l2, l6), k6), Xor16(Xor16(l3, l7), k7))
  {
    hide XorHalf, Four, Xor16;
    FourXor(l0, l1, l2, l3, l4, l5, l6, l7);
    FourXor(Xor16(l0, l4), Xor16(l1, l5), Xor16(l2, l6), Xor16(l3, l7), k4, k5, k6, k7);
  }

  lemma AllAgain(l0: bv16, l1: bv16, l2: bv16, l3: bv16, l4: bv16, l5: bv16, l6: bv16, l7: bv16)
    ensures Xor16(Xor16(l0, l4), l4) == l0 && Xor16(Xor16(l1, l5), l5) == l1 && Xor16(Xor16(l2, l6), l6) == l2
    ensures Xor16(Xor16(l0, l4), 0) == Xor16(l0, l4) && Xor16(Xor16(l1, l5), 0) == Xor16(l1, l5)
    ensures Xor16(Xor16(l2, l6), 0) == Xor16(l2, l6) && Xor16(Xor16(l3, l7), 0) == Xor16(l3, l7)
  {
    hide Xor16;
    XorAgain(l0, l4);
    XorAgain(l1, l5);
    XorAgain(l2, l6);
    XorAgain(Xor16(l0, l4), 0);
    XorAgain(Xor16(l1, l5), 0);
    XorAgain(Xor16(l2, l6), 0);
    XorAgain(Xor16(l3, l7), 0);
  }

  /** The mask keeps three lanes of the first vector and two of the second. */
  lemma FoldKeeping3(l0: bv16, l1: bv16, l2: bv16, l3: bv16, l4: bv16, l5: bv16, l6: bv16, l7: bv16, other: Vector)
    ensures FoldPair(Lanes(l0, l1, l2, l3, l4, l5, l6, l7), other, Combine(0x0000ffffffffffff, 0x00000000ffffffff)).0
            == Lanes(l0, l1, l2, Xor16(l3, l7), l4, l5, l6, 0)
  {
    hide FoldPair, Low, High, Combine, Lanes, XorHalf, AndHalf, Four, Xor16;
    FoldHalves(Lanes(l0, l1, l2, l3, l4, l5, l6, l7), other, 0x0000ffffffffffff, 0x00000000ffffffff);
    HalvesOfLanes(l0, l1, l2, l3, l4, l5, l6, l7);
    Kept3(l4, l5, l6, l7);
    FoldedHalf(l0, l1, l2, l3, l4, l5, l6, l7, l4, l5, l6, 0);
    AllAgain(l0, l1, l2, l3, l4, l5, l6, l7);
    LanesOfHalves(l0, l1, l2, Xor16(l3, l7), l4, l5, l6, 0);
  }

  lemma FoldKeeping2(other: Vector, m0: bv16, m1: bv16, m2: bv16, m3: bv16, m4: bv16, m5: bv16, m6: bv16, m7: bv16)
    ensures FoldPair(other, Lanes(m0, m1, m2, m3, m4, m5, m6, m7), Combine(0x0000ffffffffffff, 0x00000000ffffffff)).1
            == Lanes(m0, m1, Xor16(m2, m6), Xor16(m3, m7), m4, m5, 0, 0)
  {
    hide FoldPair, Low, High, Combine, Lanes, XorHalf, AndHalf, Four, Xor16;
    FoldHalves(other, Lanes(m0, m1, m2, m3, m4, m5, m6, m7), 0x0000ffffffffffff, 0x00000000ffffffff);
    HalvesOfLanes(m0, m1, m2, m3, m4, m5, m6, m7);
    Kept2(m4, m5, m6, m7);
    FoldedHalf(m0, m1, m2, m3, m4, m5, m6, m7, m4, m5, 0, 0);
    AllAgain(m0, m1, m2, m3, m4, m5, m6, m7);
    LanesOfHalves(m0, m1, Xor16(m2, m6), Xor16(m3, m7), m4, m5, 0, 0);
  }

  lemma FoldKeeping1(l0: bv16, l1: bv16, l2: bv16, l3: bv16, l4: bv16, l5: bv16, l6: bv16, l7: bv16, other: Vector)
    ensures FoldPair(Lanes(l0, l1, l2, l3, l4, l5, l6, l7), other, Combine(0x000000000000ffff, 0x0000000000000000)).0
            == Lanes(l0, Xor16(l1, l5), Xor16(l2, l6), Xor16(l3, l7), l4, 0, 0, 0)
  {
    hide FoldPair, Low, High, Combine, Lanes, XorHalf, AndHalf, Four, Xor16;
    FoldHalves(Lanes(l0, l1, l2, l3, l4, l5, l6, l7), other, 0x000000000000ffff, 0x0000000000000000);
    HalvesOfLanes(l0, l1, l2, l3, l4, l5, l6, l7);
    Kept1(l4, l5, l6, l7);
    FoldedHalf(l0, l1, l2, l3, l4, l5, l6, l7, l4, 0, 0, 0);
    AllAgain(l0, l1, l2, l3, l4, l5, l6, l7);
    LanesOfHalves(l0, Xor16(l1, l5), Xor16(l2, l6), Xor16(l3, l7), l4, 0, 0, 0);
  }

  lemma FoldKeeping0(other: Vector, m0: bv16, m1: bv16, m2: bv16, m3: bv16, m4: bv16, m5: bv16, m6: bv16, m7: bv16)
    ensures FoldPair(other, Lanes(m0, m1, m2, m3, m4, m5, m6, m7), Combine(0x000000000000ffff, 0x0000000000000000)).1
            == Lanes(Xor16(m0, m4), Xor16(m1, m5), Xor16(m2, m6), Xor16(m3, m7), 0, 0, 0, 0)
  {
    hide FoldPair, Low, High, Combine, Lanes, XorHalf, AndHalf, Four, Xor16;
    FoldHalves(other, Lanes(m0, m1, m2, m3, m4, m5, m6, m7), 0x000000000000ffff, 0x0000000000000000);
    HalvesOfLanes(m0, m1, m2, m3, m4, m5, m6, m7);
    Kept0(m4, m5, m6, m7);
    FoldedHalf(m0, m1, m2, m3, m4, m5, m6, m7, 0, 0, 0, 0);
    AllAgain(m0, m1, m2, m3, m4, m5, m6, m7);
    LanesOfHalves(Xor16(m0, m4), Xor16(m1, m5), Xor16(m2, m6), Xor16(m3, m7), 0, 0, 0, 0);
  }

  // ---- Which products of bytes land where ----

  /** Lane i of the cross products n apart. */
  function Cross(a: bv64, b: bv64, i: nat, n: nat): bv16
    requires i < 8
  {
    Xor16(Pair(a, b, i, (i + n) % 8), Pair(a, b, (i + n) % 8, i))
  }

  lemma PlainVector(a: bv64, b: bv64)
    ensures VmullP8(a, b) == Lanes(Pair(a, b, 0, 0), Pair(a, b, 1, 1), Pair(a, b, 2, 2), Pair(a, b, 3, 3), Pair(a, b, 4, 4), Pair(a, b, 5, 5), Pair(a, b, 6, 6), Pair(a, b, 7, 7))
  {
    hide Lanes, Pmull8, ByteAt;
  }

  lemma RightTurned1(a: bv64, b: bv64)
    ensures VmullP8(a, VextP8By1(b)) == Lanes(Pair(a, b, 0, 1), Pair(a, b, 1, 2), Pair(a, b, 2, 3), Pair(a, b, 3, 4), Pair(a, b, 4, 5), Pair(a, b, 5, 6), Pair(a, b, 6, 7), Pair(a, b, 7, 0))
  {
    hide Lanes, Pmull8, ByteAt, VextP8By1;
    Turned1(b);
  }

  lemma LeftTurned1(a: bv64, b: bv64)
    ensures VmullP8(VextP8By1(a), b) == Lanes(Pair(a, b, 1, 0), Pair(a, b, 2, 1), Pair(a, b, 3, 2), Pair(a, b, 4, 3), Pair(a, b, 5, 4), Pair(a, b, 6, 5), Pair(a, b, 7, 6), Pair(a, b, 0, 7))
  {
    hide Lanes, Pmull8, ByteAt, VextP8By1;
    Turned1(a);
  }

  lemma CrossVector1(a: bv64, b: bv64)
    ensures Xor128(VmullP8(a, VextP8By1(b)), VmullP8(VextP8By1(a), b))
            == Lanes(Cross(a, b, 0, 1), Cross(a, b, 1, 1), Cross(a, b, 2, 1), Cross(a, b, 3, 1), Cross(a, b, 4, 1), Cross(a, b, 5, 1), Cross(a, b, 6, 1), Cross(a, b, 7, 1))
  {
    hide Xor16, Xor128, Lanes, VmullP8, Pair, VextP8By1;
    RightTurned1(a, b);
    LeftTurned1(a, b);
    LanesXor(Pair(a, b, 0, 1), Pair(a, b, 1, 2), Pair(a, b, 2, 3), Pair(a, b, 3, 4), Pair(a, b, 4, 5), Pair(a, b, 5, 6), Pair(a, b, 6, 7), Pair(a, b, 7, 0),
             Pair(a, b, 1, 0), Pair(a, b, 2, 1), Pair(a, b, 3, 2), Pair(a, b, 4, 3), Pair(a, b, 5, 4), Pair(a, b, 6, 5), Pair(a, b, 7, 6), Pair(a, b, 0, 7));
  }

  lemma RightTurned2(a: bv64, b: bv64)
    ensures VmullP8(a, VextP8By2(b)) == Lanes(Pair(a, b, 0, 2), Pair(a, b, 1, 3), Pair(a, b, 2, 4), Pair(a, b, 3, 5), Pair(a, b, 4, 6), Pair(a, b, 5, 7), Pair(a, b, 6, 0), Pair(a, b, 7, 1))
  {
    hide Lanes, Pmull8, ByteAt, VextP8By2;
    Turned2(b);
  }

  lemma LeftTurned2(a: bv64, b: bv64)
    ensures VmullP8(VextP8By2(a), b) == Lanes(Pair(a, b, 2, 0), Pair(a, b, 3, 1), Pair(a, b, 4, 2), Pair(a, b, 5, 3), Pair(a, b, 6, 4), Pair(a, b, 7, 5), Pair(a, b, 0, 6), Pair(a, b, 1, 7))
  {
    hide Lanes, Pmull8, ByteAt, VextP8By2;
    Turned2(a);
  }

  lemma CrossVector2(a: bv64, b: bv64)
    ensures Xor128(VmullP8(a, VextP8By2(b)), VmullP8(VextP8By2(a), b))
            == Lanes(Cross(a, b, 0, 2), Cross(a, b, 1, 2), Cross(a, b, 2, 2), Cross(a, b, 3, 2), Cross(a, b, 4, 2), Cross(a, b, 5, 2), Cross(a, b, 6, 2), Cross(a, b, 7, 2))
  {
    hide Xor16, Xor128, Lanes, VmullP8, Pair, VextP8By2;
    RightTurned2(a, b);
    LeftTurned2(a, b);
    LanesXor(Pair(a, b, 0, 2), Pair(a, b, 1, 3), Pair(a, b, 2, 4), Pair(a, b, 3, 5), Pair(a, b, 4, 6), Pair(a, b, 5, 7), Pair(a, b, 6, 0), Pair(a, b, 7, 1),
             Pair(a, b, 2, 0), Pair(a, b, 3, 1), Pair(a, b, 4, 2), Pair(a, b, 5, 3), Pair(a, b, 6, 4), Pair(a, b, 7, 5), Pair(a, b, 0, 6), Pair(a, b, 1, 7));
  }

  lemma RightTurned3(a: bv64, b: bv64)
    ensures VmullP8(a, VextP8By3(b)) == Lanes(Pair(a, b, 0, 3), Pair(a, b, 1, 4), Pair(a, b, 2, 5), Pair(a, b, 3, 6), Pair(a, b, 4, 7), Pair(a, b, 5, 0), Pair(a, b, 6, 1), Pair(a, b, 7, 2))
  {
    hide Lanes, Pmull8, ByteAt, VextP8By3;
    Turned3(b);
  }

  lemma LeftTurned3(a: bv64, b: bv64)
    ensures VmullP8(VextP8By3(a), b) == Lanes(Pair(a, b, 3, 0), Pair(a, b, 4, 1), Pair(a, b, 5, 2), Pair(a, b, 6, 3), Pair(a, b, 7, 4), Pair(a, b, 0, 5), Pair(a, b, 1, 6), Pair(a, b, 2, 7))
  {
    hide Lanes, Pmull8, ByteAt, VextP8By3;
    Turned3(a);
  }

  lemma CrossVector3(a: bv64, b: bv64)
    ensures Xor128(VmullP8(a, VextP8By3(b)), VmullP8(VextP8By3(a), b))
            == Lanes(Cross(a, b, 0, 3), Cross(a, b, 1, 3), Cross(a, b, 2, 3), Cross(a, b, 3, 3), Cross(a, b, 4, 3), Cross(a, b, 5, 3), Cross(a, b, 6, 3), Cross(a, b, 7, 3))
  {
    hide Xor16, Xor128, Lanes, VmullP8, Pair, VextP8By3;
    RightTurned3(a, b);
    LeftTurned3(a, b);
    LanesXor(Pair(a, b, 0, 3), Pair(a, b, 1, 4), Pair(a, b, 2, 5), Pair(a, b, 3, 6), Pair(a, b, 4, 7), Pair(a, b, 5, 0), Pair(a, b, 6, 1), Pair(a, b, 7, 2),
             Pair(a, b, 3, 0), Pair(a, b, 4, 1), Pair(a, b, 5, 2), Pair(a, b, 6, 3), Pair(a, b, 7, 4), Pair(a, b, 0, 5), Pair(a, b, 1, 6), Pair(a, b, 2, 7));
  }

  lemma RightTurned4(a: bv64, b: bv64)
    ensures VmullP8(a, VextP8By4(b)) == Lanes(Pair(a, b, 0, 4), Pair(a, b, 1, 5), Pair(a, b, 2, 6), Pair(a, b, 3, 7), Pair(a, b, 4, 0), Pair(a, b, 5, 1), Pair(a, b, 6, 2), Pair(a, b, 7, 3))
  {
    hide Lanes, Pmull8, ByteAt, VextP8By4;
    Turned4(b);
  }

  lemma TurnedUp15(l0: bv16, l1: bv16, l2: bv16, l3: bv16, l4: bv16, l5: bv16, l6: bv16)
    ensures VextqBy15(Lanes(l0, l1, l2, l3, l4, l5, l6, 0)) == Shift8(Lanes(l0, l1, l2, l3, l4, l5, l6, 0))
  {
  }

  lemma TurnedUp14(l0: bv16, l1: bv16, l2: bv16, l3: bv16, l4: bv16, l5: bv16)
    ensures VextqBy14(Lanes(l0, l1, l2, l3, l4, l5, 0, 0)) == Lanes(0, l0, l1, l2, l3, l4, l5, 0)
  {
  }

  lemma TurnedAgain(t: Vector)
    ensures VextqBy15((t << 16) | (t >> 112)) == (t << 24) | (t >> 104)
  {
  }

  lemma TurnDefinitions(t: Vector)
    ensures VextqBy14(t) == (t << 16) | (t >> 112) && VextqBy13(t) == (t << 24) | (t >> 104)
  {
  }

  lemma TurnsAdd(t: Vector)
    ensures VextqBy13(t) == VextqBy15(VextqBy14(t))
  {
    hide VextqBy15, VextqBy14, VextqBy13;
    TurnedAgain(t);
    TurnDefinitions(t);
  }

  lemma TurnedUp13(l0: bv16, l1: bv16, l2: bv16, l3: bv16, l4: bv16)
    ensures VextqBy13(Lanes(l0, l1, l2, l3, l4, 0, 0, 0)) == Shift8(Lanes(0, l0, l1, l2, l3, l4, 0, 0))
  {
    hide Lanes, Shift8, VextqBy15, VextqBy14, VextqBy13;
    TurnedUp14(l0, l1, l2, l3, l4, 0);
    TurnedUp15(0, l0, l1, l2, l3, l4, 0);
    TurnsAdd(Lanes(l0, l1, l2, l3, l4, 0, 0, 0));
  }

  lemma TurnedUp12(l0: bv16, l1: bv16, l2: bv16, l3: bv16)
    ensures VextqBy12(Lanes(l0, l1, l2, l3, 0, 0, 0, 0)) == Lanes(0, 0, l0, l1, l2, l3, 0, 0)
  {
  }

  /** The sum of the polyfill, sorted into lanes at even and at odd bytes. */
  lemma SortedSum(d: Vector, odd: Vector, even: Vector, odd2: Vector, even2: Vector)
    ensures Xor128(Xor128(d, Xor128(Shift8(odd), even)), Xor128(Shift8(odd2), even2))
            == Xor128(Xor128(Xor128(d, even), even2), Shift8(Xor128(odd, odd2)))
  {
    hide Xor128, Shift8;
    Shift8Linear(odd, odd2);
    XorSwaps(Shift8(odd), even);
    XorAssociates(d, even, Shift8(odd));
    XorSwaps(Shift8(odd2), even2);
    XorExchange(Xor128(d, even), Shift8(odd), even2, Shift8(odd2));
  }

  /** Folding, shifting and adding, on any lanes. */
  lemma FoldedLanes(d0: bv16, d1: bv16, d2: bv16, d3: bv16, d4: bv16, d5: bv16, d6: bv16, d7: bv16,
                    l0: bv16, l1: bv16, l2: bv16, l3: bv16, l4: bv16, l5: bv16, l6: bv16, l7: bv16,
                    m0: bv16, m1: bv16, m2: bv16, m3: bv16, m4: bv16, m5: bv16, m6: bv16, m7: bv16,
                    n0: bv16, n1: bv16, n2: bv16, n3: bv16, n4: bv16, n5: bv16, n6: bv16, n7: bv16,
                    k0: bv16, k1: bv16, k2: bv16, k3: bv16, k4: bv16, k5: bv16, k6: bv16, k7: bv16)
    ensures var k48_32 := Combine(0x0000ffffffffffff, 0x00000000ffffffff);
            var k16_00 := Combine(0x000000000000ffff, 0x0000000000000000);
            var (t0, t1) := FoldPair(Lanes(l0, l1, l2, l3, l4, l5, l6, l7), Lanes(m0, m1, m2, m3, m4, m5, m6, m7), k48_32);
            var (t2, t3) := FoldPair(Lanes(n0, n1, n2, n3, n4, n5, n6, n7), Lanes(k0, k1, k2, k3, k4, k5, k6, k7), k16_00);
            Xor128(Xor128(Lanes(d0, d1, d2, d3, d4, d5, d6, d7), Xor128(VextqBy15(t0), VextqBy14(t1))), Xor128(VextqBy13(t2), VextqBy12(t3)))
            == Xor128(Lanes(Xor16(Xor16(d0, 0), 0),
                            Xor16(Xor16(d1, m0), 0),
                            Xor16(Xor16(d2, m1), Xor16(k0, k4)),
                            Xor16(Xor16(d3, Xor16(m2, m6)), Xor16(k1, k5)),
                            Xor16(Xor16(d4, Xor16(m3, m7)), Xor16(k2, k6)),
                            Xor16(Xor16(d5, m4), Xor16(k3, k7)),
                            Xor16(Xor16(d6, m5), 0),
                            Xor16(Xor16(d7, 0), 0)),
                      Shift8(Lanes(Xor16(l0, 0),
                                   Xor16(l1, n0),
                                   Xor16(l2, Xor16(n1, n5)),
                                   Xor16(Xor16(l3, l7), Xor16(n2, n6)),
                                   Xor16(l4, Xor16(n3, n7)),
                                   Xor16(l5, n4),
                                   Xor16(l6, 0),
                                   Xor16(0, 0))))
  {
    hide Xor16, Xor128, Lanes, FoldPair, Combine, Shift8, VextqBy15, VextqBy14, VextqBy13, VextqBy12;
    var vl, vm, vn, vk := Lanes(l0, l1, l2, l3, l4, l5, l6, l7), Lanes(m0, m1, m2, m3, m4, m5, m6, m7), Lanes(n0, n1, n2, n3, n4, n5, n6, n7), Lanes(k0, k1, k2, k3, k4, k5, k6, k7);
    FoldKeeping3(l0, l1, l2, l3, l4, l5, l6, l7, vm);
    FoldKeeping2(vl, m0, m1, m2, m3, m4, m5, m6, m7);
    FoldKeeping1(n0, n1, n2, n3, n4, n5, n6, n7, vk);
    FoldKeeping0(vn, k0, k1, k2, k3, k4, k5, k6, k7);
    TurnedUp15(l0, l1, l2, Xor16(l3, l7), l4, l5, l6);
    TurnedUp14(m0, m1, Xor16(m2, m6), Xor16(m3, m7), m4, m5);
    TurnedUp13(n0, Xor16(n1, n5), Xor16(n2, n6), Xor16(n3, n7), n4);
    TurnedUp12(Xor16(k0, k4), Xor16(k1, k5), Xor16(k2, k6), Xor16(k3, k7));
    SortedSum(Lanes(d0, d1, d2, d3, d4, d5, d6, d7), Lanes(l0, l1, l2, Xor16(l3, l7), l4, l5, l6, 0), Lanes(0, m0, m1, Xor16(m2, m6), Xor16(m3, m7), m4, m5, 0), Lanes(0, n0, Xor16(n1, n5), Xor16(n2, n6), Xor16(n3, n7), n4, 0, 0), Lanes(0, 0, Xor16(k0, k4), Xor16(k1, k5), Xor16(k2, k6), Xor16(k3, k7), 0, 0));
    LanesXor(d0, d1, d2, d3, d4, d5, d6, d7, 0, m0, m1, Xor16(m2, m6), Xor16(m3, m7), m4, m5, 0);
    LanesXor(Xor16(d0, 0), Xor16(d1, m0), Xor16(d2, m1), Xor16(d3, Xor16(m2, m6)), Xor16(d4, Xor16(m3, m7)), Xor16(d5, m4), Xor16(d6, m5), Xor16(d7, 0),
             0, 0, Xor16(k0, k4), Xor16(k1, k5), Xor16(k2, k6), Xor16(k3, k7), 0, 0);
    LanesXor(l0, l1, l2, Xor16(l3, l7), l4, l5, l6, 0, 0, n0, Xor16(n1, n5), Xor16(n2, n6), Xor16(n3, n7), n4, 0, 0);
  }

  // ---- The reference, sorted the same way ----

  /** Words a whole lane apart. */
  function LanesOf(s: seq<bv16>): Vector
    decreases |s|
  {
    if s == [] then 0 else Xor128(WideWord(s[0]), Shift8(Shift8(LanesOf(s[1..]))))
  }

  function Evens(s: seq<bv16>): seq<bv16>
    decreases |s|
  {
    if s == [] then [] else [s[0]] + Odds(s[1..])
  }

  function Odds(s: seq<bv16>): seq<bv16>
    decreases |s|
  {
    if s == [] then [] else Evens(s[1..])
  }

  lemma {:induction false} EvensAndOdds(s: seq<bv16>)
    ensures |Evens(s)| == (|s| + 1) / 2 && forall m :: 0 <= m < |Evens(s)| ==> Evens(s)[m] == s[2 * m]
    ensures |Odds(s)| == |s| / 2 && forall m :: 0 <= m < |Odds(s)| ==> Odds(s)[m] == s[2 * m + 1]
    decreases |s|
  {
    if s != [] {
      EvensAndOdds(s[1..]);
      assert |Evens(s)| == 1 + |Odds(s[1..])|;
      forall m | 0 <= m < |Evens(s)| ensures Evens(s)[m] == s[2 * m] {
        if m > 0 { assert Evens(s)[m] == Odds(s[1..])[m - 1]; }
      }
    }
  }

  /** Words a byte apart are two vectors of lanes, one of them a byte up. */
  lemma {:induction false} ValueSorted(s: seq<bv16>)
    ensures Value(s) == Xor128(LanesOf(Evens(s)), Shift8(LanesOf(Odds(s))))
    decreases |s|
  {
    hide Xor128, Shift8, WideWord;
    if s == [] {
      ShiftZero();
      XorZero(0);
    } else {
      var rest := s[1..];
      ValueSorted(rest);
      Shift8Linear(LanesOf(Evens(rest)), Shift8(LanesOf(Odds(rest))));
      XorSwaps(Shift8(LanesOf(Evens(rest))), Shift8(Shift8(LanesOf(Odds(rest)))));
      XorAssociates(WideWord(s[0]), Shift8(Shift8(LanesOf(Odds(rest)))), Shift8(LanesOf(Evens(rest))));
      assert Evens(s)[1..] == Odds(rest);
    }
  }

  function ShiftBy16(v: Vector): Vector { v << 16 }

  /** Lanes from which nothing is lost on the way up. */
  lemma LanesShifted(l1: bv16, l2: bv16, l3: bv16, l4: bv16, l5: bv16, l6: bv16, l7: bv16)
    ensures ShiftBy16(Lanes(l1, l2, l3, l4, l5, l6, l7, 0)) == Lanes(0, l1, l2, l3, l4, l5, l6, l7)
  {
  }

  lemma FirstLane(l0: bv16)
    ensures WideWord(l0) == Lanes(l0, 0, 0, 0, 0, 0, 0, 0)
  {
  }

  lemma WordXorNothing(l: bv16)
    ensures Xor16(l, 0) == l && Xor16(0, l) == l
  {
  }

  lemma ShiftTwiceIs16(v: Vector)
    ensures Shift8(Shift8(v)) == ShiftBy16(v)
  {
    hide Shift8;
    ShiftTwice(v);
  }

  lemma LanesUp(l0: bv16, l1: bv16, l2: bv16, l3: bv16, l4: bv16, l5: bv16, l6: bv16, l7: bv16)
    ensures Lanes(l0, l1, l2, l3, l4, l5, l6, l7) == Xor128(WideWord(l0), Shift8(Shift8(Lanes(l1, l2, l3, l4, l5, l6, l7, 0))))
  {
    hide Shift8, ShiftBy16, Lanes, Xor128, Xor16, WideWord;
    ShiftTwiceIs16(Lanes(l1, l2, l3, l4, l5, l6, l7, 0));
    LanesShifted(l1, l2, l3, l4, l5, l6, l7);
    FirstLane(l0);
    LanesXor(l0, 0, 0, 0, 0, 0, 0, 0, 0, l1, l2, l3, l4, l5, l6, l7);
    forall l ensures Xor16(l, 0) == l && Xor16(0, l) == l { WordXorNothing(l); }
  }

  lemma ShiftTwice(b: Vector)
    ensures Shift8(Shift8(b)) == b << 16
  {
    hide Shift8;
    ShiftDefinitions(b);
    ShiftedTwice(b);
  }

  lemma ShiftedTwice(b: Vector)
    ensures Shift8(b << 8) == b << 16
  {
  }

  lemma NoLanes()
    ensures Lanes(0, 0, 0, 0, 0, 0, 0, 0) == 0
  {
  }

  lemma OneMoreLane(l0: bv16, l1: bv16, l2: bv16, l3: bv16, l4: bv16, l5: bv16, l6: bv16, l7: bv16, s: seq<bv16>)
    requires s != [] && s[0] == l0 && LanesOf(s[1..]) == Lanes(l1, l2, l3, l4, l5, l6, l7, 0)
    ensures LanesOf(s) == Lanes(l0, l1, l2, l3, l4, l5, l6, l7)
  {
    hide Lanes, Xor128, Shift8, WideWord;
    LanesUp(l0, l1, l2, l3, l4, l5, l6, l7);
  }

  lemma NothingOfNothing()
    ensures LanesOf([]) == 0
  {
  }

  lemma LanesOfEight(s: seq<bv16>)
    requires |s| == 8
    ensures LanesOf(s) == Lanes(s[0], s[1], s[2], s[3], s[4], s[5], s[6], s[7])
  {
    hide Lanes, LanesOf;
    NothingOfNothing();
    NoLanes();
    assert s[7..][1..] == s[8..];
    OneMoreLane(s[7], 0, 0, 0, 0, 0, 0, 0, s[7..]);
    assert s[6..][1..] == s[7..];
    OneMoreLane(s[6], s[7], 0, 0, 0, 0, 0, 0, s[6..]);
    assert s[5..][1..] == s[6..];
    OneMoreLane(s[5], s[6], s[7], 0, 0, 0, 0, 0, s[5..]);
    assert s[4..][1..] == s[5..];
    OneMoreLane(s[4], s[5], s[6], s[7], 0, 0, 0, 0, s[4..]);
    assert s[3..][1..] == s[4..];
    OneMoreLane(s[3], s[4], s[5], s[6], s[7], 0, 0, 0, s[3..]);
    assert s[2..][1..] == s[3..];
    OneMoreLane(s[2], s[3], s[4], s[5], s[6], s[7], 0, 0, s[2..]);
    assert s[1..][1..] == s[2..];
    OneMoreLane(s[1], s[2], s[3], s[4], s[5], s[6], s[7], 0, s[1..]);
    assert s[0..][1..] == s[1..];
    OneMoreLane(s[0], s[1], s[2], s[3], s[4], s[5], s[6], s[7], s[0..]);
    assert s[0..] == s;
  }

  // ---- Lane by lane ----

  function Sum8(p0: bv16, p1: bv16, p2: bv16, p3: bv16, p4: bv16, p5: bv16, p6: bv16, p7: bv16): bv16 {
    p0 ^ p1 ^ p2 ^ p3 ^ p4 ^ p5 ^ p6 ^ p7
  }

  lemma Sum8Shifts(p0: bv16, p1: bv16, p2: bv16, p3: bv16, p4: bv16, p5: bv16, p6: bv16)
    ensures Sum8(0, p0, p1, p2, p3, p4, p5, p6) == Sum8(p0, p1, p2, p3, p4, p5, p6, 0)
  {
  }

  lemma Sum8Backwards(p0: bv16, p1: bv16, p2: bv16, p3: bv16, p4: bv16, p5: bv16, p6: bv16, p7: bv16)
    ensures Sum8(p0, p1, p2, p3, p4, p5, p6, p7) == Sum8(p7, p6, p5, p4, p3, p2, p1, p0)
  {
  }

  lemma SumOf2(p0: bv16, p1: bv16)
    ensures Sum8(p0, p1, 0, 0, 0, 0, 0, 0) == Xor16(p0, p1)
  {
  }

  lemma SumOf3(p0: bv16, p1: bv16, p2: bv16)
    ensures Sum8(p0, p1, p2, 0, 0, 0, 0, 0) == Xor16(Sum8(p0, p1, 0, 0, 0, 0, 0, 0), p2)
  {
  }

  lemma SumOf4(p0: bv16, p1: bv16, p2: bv16, p3: bv16)
    ensures Sum8(p0, p1, p2, p3, 0, 0, 0, 0) == Xor16(Sum8(p0, p1, p2, 0, 0, 0, 0, 0), p3)
  {
  }

  lemma SumOf5(p0: bv16, p1: bv16, p2: bv16, p3: bv16, p4: bv16)
    ensures Sum8(p0, p1, p2, p3, p4, 0, 0, 0) == Xor16(Sum8(p0, p1, p2, p3, 0, 0, 0, 0), p4)
  {
  }

  lemma SumOf6(p0: bv16, p1: bv16, p2: bv16, p3: bv16, p4: bv16, p5: bv16)
    ensures Sum8(p0, p1, p2, p3, p4, p5, 0, 0) == Xor16(Sum8(p0, p1, p2, p3, p4, 0, 0, 0), p5)
  {
  }

  lemma SumOf7(p0: bv16, p1: bv16, p2: bv16, p3: bv16, p4: bv16, p5: bv16, p6: bv16)
    ensures Sum8(p0, p1, p2, p3, p4, p5, p6, 0) == Xor16(Sum8(p0, p1, p2, p3, p4, p5, 0, 0), p6)
  {
  }

  lemma SumOf8(p0: bv16, p1: bv16, p2: bv16, p3: bv16, p4: bv16, p5: bv16, p6: bv16, p7: bv16)
    ensures Sum8(p0, p1, p2, p3, p4, p5, p6, p7) == Xor16(Sum8(p0, p1, p2, p3, p4, p5, p6, 0), p7)
  {
  }

  lemma LeftSum(p0: bv16, p1: bv16, p2: bv16, p3: bv16, p4: bv16, p5: bv16, p6: bv16, p7: bv16)
    ensures Sum8(p0, p1, p2, p3, p4, p5, p6, p7) == Xor16(Xor16(Xor16(Xor16(Xor16(Xor16(Xor16(p0, p1), p2), p3), p4), p5), p6), p7)
  {
    hide Sum8, Xor16;
    SumOf2(p0, p1);
    SumOf3(p0, p1, p2);
    SumOf4(p0, p1, p2, p3);
    SumOf5(p0, p1, p2, p3, p4);
    SumOf6(p0, p1, p2, p3, p4, p5);
    SumOf7(p0, p1, p2, p3, p4, p5, p6);
    SumOf8(p0, p1, p2, p3, p4, p5, p6, p7);
  }

  lemma Xor16Laws(x: bv16, y: bv16, z: bv16)
    ensures Xor16(Xor16(x, y), z) == Xor16(x, Xor16(y, z)) && Xor16(x, y) == Xor16(y, x)
  {
  }

  lemma RightSum(p0: bv16, p1: bv16, p2: bv16, p3: bv16, p4: bv16, p5: bv16, p6: bv16, p7: bv16)
    ensures Sum8(p0, p1, p2, p3, p4, p5, p6, p7) == Xor16(p0, Xor16(p1, Xor16(p2, Xor16(p3, Xor16(p4, Xor16(p5, Xor16(p6, p7)))))))
  {
    hide Sum8, Xor16;
    Sum8Backwards(p0, p1, p2, p3, p4, p5, p6, p7);
    LeftSum(p7, p6, p5, p4, p3, p2, p1, p0);
    Xor16Laws(p6, p7, 0);
    Xor16Laws(p5, Xor16(p6, p7), 0);
    Xor16Laws(p4, Xor16(p5, Xor16(p6, p7)), 0);
    Xor16Laws(p3, Xor16(p4, Xor16(p5, Xor16(p6, p7))), 0);
    Xor16Laws(p2, Xor16(p3, Xor16(p4, Xor16(p5, Xor16(p6, p7)))), 0);
    Xor16Laws(p1, Xor16(p2, Xor16(p3, Xor16(p4, Xor16(p5, Xor16(p6, p7))))), 0);
    Xor16Laws(p0, Xor16(p1, Xor16(p2, Xor16(p3, Xor16(p4, Xor16(p5, Xor16(p6, p7)))))), 0);
  }

  lemma EvenLane(c: bv16, x1: bv16, y1: bv16, x2: bv16, y2: bv16, x3: bv16, y3: bv16)
    ensures Xor16(Xor16(c, Xor16(Xor16(x1, y1), Xor16(x3, y3))), Xor16(x2, y2)) == Sum8(y3, x2, x1, c, y1, y2, x3, 0)
  {
    hide Sum8, Xor16;
    var m := Xor16(Xor16(x1, y1), Xor16(x3, y3));
    Xor16Laws(Xor16(c, m), x2, y2);
    Xor16Laws(c, Xor16(x1, y1), Xor16(x3, y3));
    Xor16Laws(Xor16(c, Xor16(x1, y1)), x3, y3);
    Xor16Laws(c, x1, y1);
    LeftSum(c, x1, y1, x3, y3, x2, y2, 0);
    Xor16Zero(Xor16(Xor16(Xor16(Xor16(Xor16(Xor16(c, x1), y1), x3), y3), x2), y2));
    EvenOrder(c, x1, y1, x2, y2, x3, y3);
  }

  lemma EvenOrder(c: bv16, x1: bv16, y1: bv16, x2: bv16, y2: bv16, x3: bv16, y3: bv16)
    ensures Sum8(c, x1, y1, x3, y3, x2, y2, 0) == Sum8(y3, x2, x1, c, y1, y2, x3, 0)
  {
  }

  lemma OddLane(x1: bv16, y1: bv16, x2: bv16, y2: bv16, x3: bv16, y3: bv16, x4: bv16, y4: bv16)
    ensures Xor16(Xor16(Xor16(x1, y1), Xor16(x4, y4)), Xor16(Xor16(x2, y2), Xor16(x3, y3)))
            == Sum8(y4, y3, x2, x1, y1, y2, x3, x4)
  {
    hide Sum8, Xor16;
    var l := Xor16(Xor16(x1, y1), Xor16(x4, y4));
    Xor16Laws(l, Xor16(x2, y2), Xor16(x3, y3));
    Xor16Laws(Xor16(l, Xor16(x2, y2)), x3, y3);
    Xor16Laws(l, x2, y2);
    Xor16Laws(Xor16(x1, y1), x4, y4);
    LeftSum(x1, y1, x4, y4, x2, y2, x3, y3);
    OddOrder(x1, y1, x2, y2, x3, y3, x4, y4);
  }

  lemma OddOrder(x1: bv16, y1: bv16, x2: bv16, y2: bv16, x3: bv16, y3: bv16, x4: bv16, y4: bv16)
    ensures Sum8(x1, y1, x4, y4, x2, y2, x3, y3) == Sum8(y4, y3, x2, x1, y1, y2, x3, x4)
  {
  }

  lemma DiagonalSum(a: bv64, b: bv64, k: int)
    ensures Diagonal(a, b, 0, k) == Sum8(Pair(a, b, 0, k - 0), Pair(a, b, 1, k - 1), Pair(a, b, 2, k - 2), Pair(a, b, 3, k - 3), Pair(a, b, 4, k - 4), Pair(a, b, 5, k - 5), Pair(a, b, 6, k - 6), Pair(a, b, 7, k - 7))
  {
    hide Sum8, Xor16, Pair;
    RightSum(Pair(a, b, 0, k - 0), Pair(a, b, 1, k - 1), Pair(a, b, 2, k - 2), Pair(a, b, 3, k - 3), Pair(a, b, 4, k - 4), Pair(a, b, 5, k - 5), Pair(a, b, 6, k - 6), Pair(a, b, 7, k - 7));
    Xor16Zero(Pair(a, b, 7, k - 7));
    DiagonalEnd(a, b, k);
  }

  lemma DiagonalEnd(a: bv64, b: bv64, k: int)
    ensures Diagonal(a, b, 0, k) == Xor16(Pair(a, b, 0, k - 0), Xor16(Pair(a, b, 1, k - 1), Xor16(Pair(a, b, 2, k - 2), Xor16(Pair(a, b, 3, k - 3), Xor16(Pair(a, b, 4, k - 4), Xor16(Pair(a, b, 5, k - 5), Xor16(Pair(a, b, 6, k - 6), Xor16(Pair(a, b, 7, k - 7), 0))))))))
  {
    hide Xor16, Pair;
    assert Diagonal(a, b, 4, k) == Xor16(Pair(a, b, 4, k - 4), Xor16(Pair(a, b, 5, k - 5), Xor16(Pair(a, b, 6, k - 6), Xor16(Pair(a, b, 7, k - 7), 0))));
  }

  lemma LanesOfSeven(s: seq<bv16>)
    requires |s| == 7
    ensures LanesOf(s) == Lanes(s[0], s[1], s[2], s[3], s[4], s[5], s[6], 0)
  {
    hide Lanes, LanesOf;
    NothingOfNothing();
    NoLanes();
    assert s[6..][1..] == s[7..];
    OneMoreLane(s[6], 0, 0, 0, 0, 0, 0, 0, s[6..]);
    assert s[5..][1..] == s[6..];
    OneMoreLane(s[5], s[6], 0, 0, 0, 0, 0, 0, s[5..]);
    assert s[4..][1..] == s[5..];
    OneMoreLane(s[4], s[5], s[6], 0, 0, 0, 0, 0, s[4..]);
    assert s[3..][1..] == s[4..];
    OneMoreLane(s[3], s[4], s[5], s[6], 0, 0, 0, 0, s[3..]);
    assert s[2..][1..] == s[3..];
    OneMoreLane(s[2], s[3], s[4], s[5], s[6], 0, 0, 0, s[2..]);
    assert s[1..][1..] == s[2..];
    OneMoreLane(s[1], s[2], s[3], s[4], s[5], s[6], 0, 0, s[1..]);
    assert s[0..][1..] == s[1..];
    OneMoreLane(s[0], s[1], s[2], s[3], s[4], s[5], s[6], 0, s[0..]);
    assert s[0..] == s;
  }

  /** The reference as two vectors of diagonals, the odd ones a byte up. */
  lemma ReferenceSorted(a: bv64, b: bv64)
    ensures Product(a, b)
            == Xor128(Lanes(Diagonal(a, b, 0, 0), Diagonal(a, b, 0, 2), Diagonal(a, b, 0, 4), Diagonal(a, b, 0, 6), Diagonal(a, b, 0, 8), Diagonal(a, b, 0, 10), Diagonal(a, b, 0, 12), Diagonal(a, b, 0, 14)),
                      Shift8(Lanes(Diagonal(a, b, 0, 1), Diagonal(a, b, 0, 3), Diagonal(a, b, 0, 5), Diagonal(a, b, 0, 7), Diagonal(a, b, 0, 9), Diagonal(a, b, 0, 11), Diagonal(a, b, 0, 13), 0)))
  {
    hide Xor128, Shift8, Lanes, LanesOf, Diagonal, Evens, Odds, Value, Product;
    ProductIsDiagonals(a, b);
    var s := seq(15, k requires 0 <= k < 15 => Diagonal(a, b, 0, k));
    ValueSorted(s);
    EvensAndOdds(s);
    LanesOfEight(Evens(s));
    LanesOfSeven(Odds(s));
  }

  lemma Lane0(a: bv64, b: bv64)
    ensures Xor16(Xor16(Pair(a, b, 0, 0), 0), 0) == Diagonal(a, b, 0, 0)
  {
    hide Sum8, Xor16, ByteAt, Pmull8, Diagonal;
    DiagonalSum(a, b, 0);
    EvenLane(Pair(a, b, 0, 0), 0, 0, 0, 0, 0, 0);
    Xor16Zero(0);
    Xor16Zero(Pair(a, b, 0, 0));
    Sum8Shifts(0, 0, Pair(a, b, 0, 0), 0, 0, 0, 0);
    Sum8Shifts(0, Pair(a, b, 0, 0), 0, 0, 0, 0, 0);
    Sum8Shifts(Pair(a, b, 0, 0), 0, 0, 0, 0, 0, 0);
  }

  lemma Lane1(a: bv64, b: bv64)
    ensures Xor16(Cross(a, b, 0, 1), 0) == Diagonal(a, b, 0, 1)
  {
    hide Sum8, Xor16, ByteAt, Pmull8, Diagonal;
    DiagonalSum(a, b, 1);
    OddLane(Pair(a, b, 0, 1), Pair(a, b, 1, 0), 0, 0, 0, 0, 0, 0);
    Xor16Zero(0);
    Xor16Zero(Xor16(Pair(a, b, 0, 1), Pair(a, b, 1, 0)));
    Sum8Shifts(0, 0, Pair(a, b, 0, 1), Pair(a, b, 1, 0), 0, 0, 0);
    Sum8Shifts(0, Pair(a, b, 0, 1), Pair(a, b, 1, 0), 0, 0, 0, 0);
    Sum8Shifts(Pair(a, b, 0, 1), Pair(a, b, 1, 0), 0, 0, 0, 0, 0);
  }

  lemma Lane2(a: bv64, b: bv64)
    ensures Xor16(Xor16(Pair(a, b, 1, 1), Cross(a, b, 0, 2)), 0) == Diagonal(a, b, 0, 2)
  {
    hide Sum8, Xor16, ByteAt, Pmull8, Diagonal;
    DiagonalSum(a, b, 2);
    EvenLane(Pair(a, b, 1, 1), Pair(a, b, 0, 2), Pair(a, b, 2, 0), 0, 0, 0, 0);
    Xor16Zero(0);
    Xor16Zero(Xor16(Pair(a, b, 0, 2), Pair(a, b, 2, 0)));
    Xor16Zero(Xor16(Pair(a, b, 1, 1), Xor16(Pair(a, b, 0, 2), Pair(a, b, 2, 0))));
    Sum8Shifts(0, Pair(a, b, 0, 2), Pair(a, b, 1, 1), Pair(a, b, 2, 0), 0, 0, 0);
    Sum8Shifts(Pair(a, b, 0, 2), Pair(a, b, 1, 1), Pair(a, b, 2, 0), 0, 0, 0, 0);
  }

  lemma Lane3(a: bv64, b: bv64)
    ensures Xor16(Cross(a, b, 1, 1), Cross(a, b, 0, 3)) == Diagonal(a, b, 0, 3)
  {
    hide Sum8, Xor16, ByteAt, Pmull8, Diagonal;
    DiagonalSum(a, b, 3);
    OddLane(Pair(a, b, 1, 2), Pair(a, b, 2, 1), Pair(a, b, 0, 3), Pair(a, b, 3, 0), 0, 0, 0, 0);
    Xor16Zero(0);
    Xor16Zero(Xor16(Pair(a, b, 1, 2), Pair(a, b, 2, 1)));
    Xor16Zero(Xor16(Pair(a, b, 0, 3), Pair(a, b, 3, 0)));
    Sum8Shifts(0, Pair(a, b, 0, 3), Pair(a, b, 1, 2), Pair(a, b, 2, 1), Pair(a, b, 3, 0), 0, 0);
    Sum8Shifts(Pair(a, b, 0, 3), Pair(a, b, 1, 2), Pair(a, b, 2, 1), Pair(a, b, 3, 0), 0, 0, 0);
  }

  lemma Lane4(a: bv64, b: bv64)
    ensures Xor16(Xor16(Pair(a, b, 2, 2), Cross(a, b, 1, 2)), Xor16(Pair(a, b, 0, 4), Pair(a, b, 4, 0))) == Diagonal(a, b, 0, 4)
  {
    hide Sum8, Xor16, ByteAt, Pmull8, Diagonal;
    DiagonalSum(a, b, 4);
    EvenLane(Pair(a, b, 2, 2), Pair(a, b, 1, 3), Pair(a, b, 3, 1), Pair(a, b, 0, 4), Pair(a, b, 4, 0), 0, 0);
    Xor16Zero(0);
    Xor16Zero(Xor16(Pair(a, b, 1, 3), Pair(a, b, 3, 1)));
    Sum8Shifts(Pair(a, b, 0, 4), Pair(a, b, 1, 3), Pair(a, b, 2, 2), Pair(a, b, 3, 1), Pair(a, b, 4, 0), 0, 0);
  }

  lemma Lane5(a: bv64, b: bv64)
    ensures Xor16(Cross(a, b, 2, 1), Xor16(Cross(a, b, 1, 3), Cross(a, b, 5, 3))) == Diagonal(a, b, 0, 5)
  {
    hide Sum8, Xor16, ByteAt, Pmull8, Diagonal;
    DiagonalSum(a, b, 5);
    OddLane(Pair(a, b, 2, 3), Pair(a, b, 3, 2), Pair(a, b, 1, 4), Pair(a, b, 4, 1), Pair(a, b, 5, 0), Pair(a, b, 0, 5), 0, 0);
    Xor16Zero(0);
    Xor16Zero(Xor16(Pair(a, b, 2, 3), Pair(a, b, 3, 2)));
    Sum8Shifts(Pair(a, b, 0, 5), Pair(a, b, 1, 4), Pair(a, b, 2, 3), Pair(a, b, 3, 2), Pair(a, b, 4, 1), Pair(a, b, 5, 0), 0);
  }

  lemma Lane6(a: bv64, b: bv64)
    ensures Xor16(Xor16(Pair(a, b, 3, 3), Xor16(Cross(a, b, 2, 2), Cross(a, b, 6, 2))), Xor16(Pair(a, b, 1, 5), Pair(a, b, 5, 1))) == Diagonal(a, b, 0, 6)
  {
    hide Sum8, Xor16, ByteAt, Pmull8, Diagonal;
    DiagonalSum(a, b, 6);
    EvenLane(Pair(a, b, 3, 3), Pair(a, b, 2, 4), Pair(a, b, 4, 2), Pair(a, b, 1, 5), Pair(a, b, 5, 1), Pair(a, b, 6, 0), Pair(a, b, 0, 6));
    Xor16Zero(0);
  }

  lemma Lane7(a: bv64, b: bv64)
    ensures Xor16(Xor16(Cross(a, b, 3, 1), Cross(a, b, 7, 1)), Xor16(Cross(a, b, 2, 3), Cross(a, b, 6, 3))) == Diagonal(a, b, 0, 7)
  {
    hide Sum8, Xor16, ByteAt, Pmull8, Diagonal;
    DiagonalSum(a, b, 7);
    OddLane(Pair(a, b, 3, 4), Pair(a, b, 4, 3), Pair(a, b, 2, 5), Pair(a, b, 5, 2), Pair(a, b, 6, 1), Pair(a, b, 1, 6), Pair(a, b, 7, 0), Pair(a, b, 0, 7));
    Xor16Zero(0);
  }

  lemma Lane8(a: bv64, b: bv64)
    ensures Xor16(Xor16(Pair(a, b, 4, 4), Xor16(Cross(a, b, 3, 2), Cross(a, b, 7, 2))), Xor16(Pair(a, b, 2, 6), Pair(a, b, 6, 2))) == Diagonal(a, b, 0, 8)
  {
    hide Sum8, Xor16, ByteAt, Pmull8, Diagonal;
    DiagonalSum(a, b, 8);
    EvenLane(Pair(a, b, 4, 4), Pair(a, b, 3, 5), Pair(a, b, 5, 3), Pair(a, b, 2, 6), Pair(a, b, 6, 2), Pair(a, b, 7, 1), Pair(a, b, 1, 7));
    Xor16Zero(0);
    Sum8Shifts(Pair(a, b, 1, 7), Pair(a, b, 2, 6), Pair(a, b, 3, 5), Pair(a, b, 4, 4), Pair(a, b, 5, 3), Pair(a, b, 6, 2), Pair(a, b, 7, 1));
  }

  lemma Lane9(a: bv64, b: bv64)
    ensures Xor16(Cross(a, b, 4, 1), Xor16(Cross(a, b, 3, 3), Cross(a, b, 7, 3))) == Diagonal(a, b, 0, 9)
  {
    hide Sum8, Xor16, ByteAt, Pmull8, Diagonal;
    DiagonalSum(a, b, 9);
    OddLane(Pair(a, b, 4, 5), Pair(a, b, 5, 4), Pair(a, b, 3, 6), Pair(a, b, 6, 3), Pair(a, b, 7, 2), Pair(a, b, 2, 7), 0, 0);
    Xor16Zero(0);
    Xor16Zero(Xor16(Pair(a, b, 4, 5), Pair(a, b, 5, 4)));
    Sum8Shifts(0, Pair(a, b, 2, 7), Pair(a, b, 3, 6), Pair(a, b, 4, 5), Pair(a, b, 5, 4), Pair(a, b, 6, 3), Pair(a, b, 7, 2));
  }

  lemma Lane10(a: bv64, b: bv64)
    ensures Xor16(Xor16(Pair(a, b, 5, 5), Cross(a, b, 4, 2)), Xor16(Pair(a, b, 3, 7), Pair(a, b, 7, 3))) == Diagonal(a, b, 0, 10)
  {
    hide Sum8, Xor16, ByteAt, Pmull8, Diagonal;
    DiagonalSum(a, b, 10);
    EvenLane(Pair(a, b, 5, 5), Pair(a, b, 4, 6), Pair(a, b, 6, 4), Pair(a, b, 3, 7), Pair(a, b, 7, 3), 0, 0);
    Xor16Zero(0);
    Xor16Zero(Xor16(Pair(a, b, 4, 6), Pair(a, b, 6, 4)));
    Sum8Shifts(0, Pair(a, b, 3, 7), Pair(a, b, 4, 6), Pair(a, b, 5, 5), Pair(a, b, 6, 4), Pair(a, b, 7, 3), 0);
    Sum8Shifts(0, 0, Pair(a, b, 3, 7), Pair(a, b, 4, 6), Pair(a, b, 5, 5), Pair(a, b, 6, 4), Pair(a, b, 7, 3));
  }

  lemma Lane11(a: bv64, b: bv64)
    ensures Xor16(Cross(a, b, 5, 1), Cross(a, b, 4, 3)) == Diagonal(a, b, 0, 11)
  {
    hide Sum8, Xor16, ByteAt, Pmull8, Diagonal;
    DiagonalSum(a, b, 11);
    OddLane(Pair(a, b, 5, 6), Pair(a, b, 6, 5), Pair(a, b, 4, 7), Pair(a, b, 7, 4), 0, 0, 0, 0);
    Xor16Zero(0);
    Xor16Zero(Xor16(Pair(a, b, 5, 6), Pair(a, b, 6, 5)));
    Xor16Zero(Xor16(Pair(a, b, 4, 7), Pair(a, b, 7, 4)));
    Sum8Shifts(0, 0, Pair(a, b, 4, 7), Pair(a, b, 5, 6), Pair(a, b, 6, 5), Pair(a, b, 7, 4), 0);
    Sum8Shifts(0, 0, 0, Pair(a, b, 4, 7), Pair(a, b, 5, 6), Pair(a, b, 6, 5), Pair(a, b, 7, 4));
  }

  lemma Lane12(a: bv64, b: bv64)
    ensures Xor16(Xor16(Pair(a, b, 6, 6), Cross(a, b, 5, 2)), 0) == Diagonal(a, b, 0, 12)
  {
    hide Sum8, Xor16, ByteAt, Pmull8, Diagonal;
    DiagonalSum(a, b, 12);
    EvenLane(Pair(a, b, 6, 6), Pair(a, b, 5, 7), Pair(a, b, 7, 5), 0, 0, 0, 0);
    Xor16Zero(0);
    Xor16Zero(Xor16(Pair(a, b, 5, 7), Pair(a, b, 7, 5)));
    Xor16Zero(Xor16(Pair(a, b, 6, 6), Xor16(Pair(a, b, 5, 7), Pair(a, b, 7, 5))));
    Sum8Shifts(0, 0, Pair(a, b, 5, 7), Pair(a, b, 6, 6), Pair(a, b, 7, 5), 0, 0);
    Sum8Shifts(0, 0, 0, Pair(a, b, 5, 7), Pair(a, b, 6, 6), Pair(a, b, 7, 5), 0);
    Sum8Shifts(0, 0, 0, 0, Pair(a, b, 5, 7), Pair(a, b, 6, 6), Pair(a, b, 7, 5));
  }

  lemma Lane13(a: bv64, b: bv64)
    ensures Xor16(Cross(a, b, 6, 1), 0) == Diagonal(a, b, 0, 13)
  {
    hide Sum8, Xor16, ByteAt, Pmull8, Diagonal;
    DiagonalSum(a, b, 13);
    OddLane(Pair(a, b, 6, 7), Pair(a, b, 7, 6), 0, 0, 0, 0, 0, 0);
    Xor16Zero(0);
    Xor16Zero(Xor16(Pair(a, b, 6, 7), Pair(a, b, 7, 6)));
    Sum8Shifts(0, 0, 0, Pair(a, b, 6, 7), Pair(a, b, 7, 6), 0, 0);
    Sum8Shifts(0, 0, 0, 0, Pair(a, b, 6, 7), Pair(a, b, 7, 6), 0);
    Sum8Shifts(0, 0, 0, 0, 0, Pair(a, b, 6, 7), Pair(a, b, 7, 6));
  }

  lemma Lane14(a: bv64, b: bv64)
    ensures Xor16(Xor16(Pair(a, b, 7, 7), 0), 0) == Diagonal(a, b, 0, 14)
  {
    hide Sum8, Xor16, ByteAt, Pmull8, Diagonal;
    DiagonalSum(a, b, 14);
    EvenLane(Pair(a, b, 7, 7), 0, 0, 0, 0, 0, 0);
    Xor16Zero(0);
    Xor16Zero(Pair(a, b, 7, 7));
    Sum8Shifts(0, 0, 0, Pair(a, b, 7, 7), 0, 0, 0);
    Sum8Shifts(0, 0, 0, 0, Pair(a, b, 7, 7), 0, 0);
    Sum8Shifts(0, 0, 0, 0, 0, Pair(a, b, 7, 7), 0);
    Sum8Shifts(0, 0, 0, 0, 0, 0, Pair(a, b, 7, 7));
  }

  /** The polyfill is the product of the two polynomials, for all operands. */
  lemma VmullP64IsProduct(a: bv64, b: bv64)
    ensures VmullP64(a, b) == Product(a, b)
  {
    hide Xor16, Xor128, Lanes, FoldPair, Combine, Shift8, VmullP8, VextP8By1, VextP8By2, VextP8By3, VextP8By4,
         VextqBy15, VextqBy14, VextqBy13, VextqBy12, Pair, Cross, Diagonal, Product;
    PlainVector(a, b);
    CrossVector1(a, b);
    CrossVector2(a, b);
    CrossVector3(a, b);
    RightTurned4(a, b);
    FoldedLanes(Pair(a, b, 0, 0), Pair(a, b, 1, 1), Pair(a, b, 2, 2), Pair(a, b, 3, 3), Pair(a, b, 4, 4), Pair(a, b, 5, 5), Pair(a, b, 6, 6), Pair(a, b, 7, 7),
                Cross(a, b, 0, 1), Cross(a, b, 1, 1), Cross(a, b, 2, 1), Cross(a, b, 3, 1), Cross(a, b, 4, 1), Cross(a, b, 5, 1), Cross(a, b, 6, 1), Cross(a, b, 7, 1),
                Cross(a, b, 0, 2), Cross(a, b, 1, 2), Cross(a, b, 2, 2), Cross(a, b, 3, 2), Cross(a, b, 4, 2), Cross(a, b, 5, 2), Cross(a, b, 6, 2), Cross(a, b, 7, 2),
                Cross(a, b, 0, 3), Cross(a, b, 1, 3), Cross(a, b, 2, 3), Cross(a, b, 3, 3), Cross(a, b, 4, 3), Cross(a, b, 5, 3), Cross(a, b, 6, 3), Cross(a, b, 7, 3),
                Pair(a, b, 0, 4), Pair(a, b, 1, 5), Pair(a, b, 2, 6), Pair(a, b, 3, 7), Pair(a, b, 4, 0), Pair(a, b, 5, 1), Pair(a, b, 6, 2), Pair(a, b, 7, 3));
    ReferenceSorted(a, b);
    Xor16Zero(0);
    Lane0(a, b);
    Lane1(a, b);
    Lane2(a, b);
    Lane3(a, b);
    Lane4(a, b);
    Lane5(a, b);
    Lane6(a, b);
    Lane7(a, b);
    Lane8(a, b);
    Lane9(a, b);
    Lane10(a, b);
    Lane11(a, b);
    Lane12(a, b);
    Lane13(a, b);
    Lane14(a, b);
  }
}
