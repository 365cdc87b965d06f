/** XXH64 tells apart inputs of one length that differ in one unit of what the finaliser reads: a 64-bit
    word, the 32-bit word, or a byte after the last whole stripe. */
module Xxh64Collisions {
  import opened Leftover
  import opened Mixing
  import opened Words
  import opened Xxh64

  /** How much the finaliser reads next. */
  function Unit(size: nat): (n: nat)
    requires size > 0
    ensures 0 < n <= size
  {
    if size >= 8 then 8 else if size >= 4 then 4 else 1
  }

  /** The tails differ in exactly one of the units that the finaliser reads. */
  ghost predicate OneUnitApart(a: Bytes, b: Bytes)
    decreases |a|
  {
    && |a| == |b| && |a| > 0
    && var n := Unit(|a|);
       if a[..n] != b[..n] then a[n..] == b[n..] else OneUnitApart(a[n..], b[n..])
  }

  /** Equal whole stripes, and tails one unit apart: the hashes differ. */
  lemma NoTailCollision(a: Bytes, b: Bytes, seed: bv64)
    requires |a| == |b| && var base := 32 * (|a| / 32); a[..base] == b[..base] && OneUnitApart(a[base..], b[base..])
    ensures Hash(a, seed) != Hash(b, seed)
  {
    hide Avalanche, Tail, InitAccs, LengthWord64, MergeAccs, Consumed, OneUnitApart, Rest;
    var base := 32 * (|a| / 32);
    assert base == |a| - |a| % 32;
    ConsumedEqual(InitAccs(seed), a, b, base);
    RestLength(32, a);
    RestLength(32, b);
    TailApart(Body(a, seed), a[base..], b[base..]);
    if Hash(a, seed) == Hash(b, seed) {
      AvalancheInjective(Tail(Body(a, seed), Rest(32, a)), Tail(Body(b, seed), Rest(32, b)));
    }
  }

  /** An input too short for a stripe is all tail. */
  lemma NoShortCollision(a: Bytes, b: Bytes, seed: bv64)
    requires |a| < 32 && OneUnitApart(a, b)
    ensures Hash(a, seed) != Hash(b, seed)
  {
    hide Hash, OneUnitApart;
    ApartSize(a, b);
    assert a[0..] == a && b[0..] == b;
    NoTailCollision(a, b, seed);
  }

  lemma ApartSize(a: Bytes, b: Bytes)
    requires OneUnitApart(a, b)
    ensures |a| == |b| && |a| > 0
  {
  }

  lemma {:induction false} ConsumedEqual(p: Lanes, a: Bytes, b: Bytes, at: nat)
    requires |a| == |b| && |a| - |a| % 32 <= at <= |a| && a[..at] == b[..at]
    ensures Consumed(p, a) == Consumed(p, b)
    decreases |a|
  {
    hide StripeRound;
    if |a| >= 32 {
      assert a[..32] == a[..at][..32] && b[..32] == b[..at][..32];
      assert a[32..][..at - 32] == a[..at][32..] && b[32..][..at - 32] == b[..at][32..];
      ConsumedEqual(StripeRound(p, a[..32]), a[32..], b[32..], at - 32);
    }
  }

  // ---- Steps on words ----

  function UnAvalanche(h: bv64): bv64 {
    UnXorShr64(Mul64(UnXorShr64(Mul64(UnXorShr64(h, 32), 0xE9E9F4C41D6DF849), 29), 0x0BA79078168D4BAF), 33)
  }

  lemma AvalancheUndone(h: bv64)
    ensures UnAvalanche(Avalanche(h)) == h && Avalanche(UnAvalanche(h)) == h
  {
    hide Mul64, XorShr64, UnXorShr64;
    var a := Mul64(XorShr64(h, 33), 0xC2B2AE3D27D4EB4F);
    XorShr64By32(Mul64(XorShr64(a, 29), 0x165667B19E3779F9));
    Mul64ByPrime3(XorShr64(a, 29));
    XorShr64By29(a);
    Mul64ByPrime2(XorShr64(h, 33));
    XorShr64By33(h);
    var u1 := UnXorShr64(h, 32);
    var u2 := UnXorShr64(Mul64(u1, 0xE9E9F4C41D6DF849), 29);
    XorShr64By32(h);
    Mul64ByPrime3(u1);
    XorShr64By29(Mul64(u1, 0xE9E9F4C41D6DF849));
    Mul64ByPrime2(u2);
    XorShr64By33(Mul64(u2, 0x0BA79078168D4BAF));
  }

  lemma AvalancheInjective(x: bv64, y: bv64)
    requires Avalanche(x) == Avalanche(y)
    ensures x == y
  {
    hide Avalanche, UnAvalanche;
    AvalancheUndone(x);
    AvalancheUndone(y);
  }

  lemma XorInjective(x: bv64, y: bv64, k: bv64)
    ensures Xor64(x, k) == Xor64(y, k) ==> x == y
    ensures Xor64(k, x) == Xor64(k, y) ==> x == y
  {
    hide Xor64;
    XorUndone64(x, k);
    XorUndone64(y, k);
    XorSwaps(x, k);
    XorSwaps(y, k);
  }

  lemma XorSwaps(x: bv64, y: bv64)
    ensures Xor64(x, y) == Xor64(y, x)
  {
  }

  lemma AddInjective(x: bv64, y: bv64, k: bv64)
    requires Add64(x, k) == Add64(y, k)
    ensures x == y
  {
    hide Add64, Sub64;
    AddUndone64(x, k);
    AddUndone64(y, k);
  }

  lemma RoundInjective(x: bv64, y: bv64)
    requires Round(0, x) == Round(0, y)
    ensures x == y
  {
    hide Add64, Mul64, Rotl64;
    var p, q := Mul64(x, 0xC2B2AE3D27D4EB4F), Mul64(y, 0xC2B2AE3D27D4EB4F);
    Mul64ByPrime1(Rotl64(Add64(0, p), 31));
    Mul64ByPrime1(Rotl64(Add64(0, q), 31));
    Rotl64By31(Add64(0, p));
    Rotl64By31(Add64(0, q));
    AddSwaps64(0, p);
    AddSwaps64(0, q);
    AddInjective(p, q, 0);
    Mul64ByPrime2(x);
    Mul64ByPrime2(y);
  }

  lemma Process8Injective(h: bv64, h': bv64, word: bv64, word': bv64)
    requires Process8(h, word) == Process8(h', word')
    ensures h == h' ==> word == word'
    ensures word == word' ==> h == h'
  {
    hide Add64, Mul64, Rotl64, Xor64, Round;
    var x, x' := Xor64(h, Round(0, word)), Xor64(h', Round(0, word'));
    AddInjective(Mul64(Rotl64(x, 27), 0x9E3779B185EBCA87), Mul64(Rotl64(x', 27), 0x9E3779B185EBCA87), 0x85EBCA77C2B2AE63);
    Mul64ByPrime1(Rotl64(x, 27));
    Mul64ByPrime1(Rotl64(x', 27));
    Rotl64By27(x);
    Rotl64By27(x');
    XorInjective(h, h', Round(0, word));
    XorInjective(Round(0, word), Round(0, word'), h);
    if h == h' { RoundInjective(word, word'); }
  }

  function WideWord(x: bv32): bv64 { x as bv64 }
  function WideByte(x: Byte): bv64 { x as bv64 }

  lemma WidenedSame(x: bv32, y: bv32)
    ensures WideWord(x) == WideWord(y) ==> x == y
  {
  }

  /** Processing a 32-bit word or a byte, widened. */
  function Mix4(h: bv64, w: bv64): bv64 {
    Add64(Mul64(Rotl64(Xor64(h, Mul64(w, 0x9E3779B185EBCA87)), 23), 0xC2B2AE3D27D4EB4F), 0x165667B19E3779F9)
  }

  function Mix1(h: bv64, w: bv64): bv64 {
    Mul64(Rotl64(Xor64(h, Mul64(w, 0x27D4EB2F165667C5)), 11), 0x9E3779B185EBCA87)
  }

  lemma Mix4Injective(h: bv64, h': bv64, w: bv64, w': bv64)
    requires Mix4(h, w) == Mix4(h', w')
    ensures (h == h' ==> w == w') && (w == w' ==> h == h')
  {
    hide Add64, Mul64, Rotl64, Xor64;
    var v, v' := Mul64(w, 0x9E3779B185EBCA87), Mul64(w', 0x9E3779B185EBCA87);
    var x, x' := Xor64(h, v), Xor64(h', v');
    AddInjective(Mul64(Rotl64(x, 23), 0xC2B2AE3D27D4EB4F), Mul64(Rotl64(x', 23), 0xC2B2AE3D27D4EB4F), 0x165667B19E3779F9);
    Mul64ByPrime2(Rotl64(x, 23));
    Mul64ByPrime2(Rotl64(x', 23));
    Rotl64By23(x);
    Rotl64By23(x');
    XorInjective(h, h', v);
    XorInjective(v, v', h);
    Mul64ByPrime1(w);
    Mul64ByPrime1(w');
  }

  lemma Mix1Injective(h: bv64, h': bv64, w: bv64, w': bv64)
    requires Mix1(h, w) == Mix1(h', w')
    ensures (h == h' ==> w == w') && (w == w' ==> h == h')
  {
    hide Mul64, Rotl64, Xor64;
    var v, v' := Mul64(w, 0x27D4EB2F165667C5), Mul64(w', 0x27D4EB2F165667C5);
    var x, x' := Xor64(h, v), Xor64(h', v');
    Mul64ByPrime1(Rotl64(x, 11));
    Mul64ByPrime1(Rotl64(x', 11));
    Rotl64By11(x);
    Rotl64By11(x');
    XorInjective(h, h', v);
    XorInjective(v, v', h);
    Mul64ByPrime5(w);
    Mul64ByPrime5(w');
  }

  lemma Widened(h: bv64, word: bv32, b: Byte)
    ensures Process4(h, word) == Mix4(h, WideWord(word)) && Process1(h, b) == Mix1(h, WideByte(b))
  {
    hide Add64, Mul64, Rotl64, Xor64;
  }

  lemma Process4Injective(h: bv64, h': bv64, word: bv32, word': bv32)
    requires Process4(h, word) == Process4(h', word')
    ensures h == h' ==> word == word'
    ensures word == word' ==> h == h'
  {
    hide Process4, Mix4, WideWord;
    Widened(h, word, 0);
    Widened(h', word', 0);
    Mix4Injective(h, h', WideWord(word), WideWord(word'));
    WidenedSame(word, word');
  }

  lemma WidenedByteSame(x: Byte, y: Byte)
    ensures WideByte(x) == WideByte(y) ==> x == y
  {
  }

  lemma Process1Injective(h: bv64, h': bv64, b: Byte, b': Byte)
    requires Process1(h, b) == Process1(h', b')
    ensures h == h' ==> b == b'
    ensures b == b' ==> h == h'
  {
    hide Process1, Mix1, WideByte;
    Widened(h, 0, b);
    Widened(h', 0, b');
    Mix1Injective(h, h', WideByte(b), WideByte(b'));
    WidenedByteSame(b, b');
  }

  lemma WordsDiffer(s: Bytes, t: Bytes)
    requires s != t
    ensures |s| == |t| == 8 ==> ReadLE64(s) != ReadLE64(t)
    ensures |s| == |t| == 4 ==> ReadLE32(s) != ReadLE32(t)
  {
    hide ReadLE32, WriteLE32, ReadLE64, WriteLE64;
    assert s == s[..|s|] && t == t[..|t|];
    if |s| == |t| == 8 {
      WriteRead64(s);
      WriteRead64(t);
    }
    if |s| == |t| == 4 {
      WriteRead32(s);
      WriteRead32(t);
    }
  }

  // ---- Tails ----

  /** The finaliser reads one unit and goes on. */
  function Process(h: bv64, unit: Bytes): bv64
    requires |unit| == 8 || |unit| == 4 || |unit| == 1
  {
    if |unit| == 8 then Process8(h, ReadLE64(unit)) else if |unit| == 4 then Process4(h, ReadLE32(unit)) else Process1(h, unit[0])
  }

  lemma TailNext(h: bv64, tail: Bytes)
    requires |tail| > 0
    ensures var n := Unit(|tail|); Tail(h, tail) == Tail(Process(h, tail[..n]), tail[n..])
  {
    hide Process1, Process4, Process8, ReadLE32, ReadLE64;
  }

  lemma ProcessInjective(h: bv64, h': bv64, s: Bytes, t: Bytes)
    requires |s| == |t| && (|s| == 8 || |s| == 4 || |s| == 1)
    requires Process(h, s) == Process(h', t)
    ensures h == h' ==> s == t
    ensures s == t ==> h == h'
  {
    hide Process1, Process4, Process8, ReadLE32, ReadLE64;
    if s != t { WordsDiffer(s, t); }
    if |s| == 8 {
      Process8Injective(h, h', ReadLE64(s), ReadLE64(t));
    } else if |s| == 4 {
      Process4Injective(h, h', ReadLE32(s), ReadLE32(t));
    } else {
      Process1Injective(h, h', s[0], t[0]);
      assert s == [s[0]] && t == [t[0]];
    }
  }

  lemma {:induction false} TailInjective(h: bv64, h': bv64, tail: Bytes)
    requires h != h'
    ensures Tail(h, tail) != Tail(h', tail)
    decreases |tail|
  {
    hide Process;
    if |tail| > 0 {
      var n := Unit(|tail|);
      TailNext(h, tail);
      TailNext(h', tail);
      if Process(h, tail[..n]) == Process(h', tail[..n]) { ProcessInjective(h, h', tail[..n], tail[..n]); }
      TailInjective(Process(h, tail[..n]), Process(h', tail[..n]), tail[n..]);
    }
  }

  lemma {:induction false} TailApart(h: bv64, a: Bytes, b: Bytes)
    requires OneUnitApart(a, b)
    ensures Tail(h, a) != Tail(h, b)
    decreases |a|
  {
    hide Process, Tail;
    var n := Unit(|a|);
    TailNext(h, a);
    TailNext(h, b);
    if a[..n] != b[..n] {
      if Process(h, a[..n]) == Process(h, b[..n]) { ProcessInjective(h, h, a[..n], b[..n]); }
      TailInjective(Process(h, a[..n]), Process(h, b[..n]), a[n..]);
    } else {
      TailApart(Process(h, a[..n]), a[n..], b[n..]);
    }
  }
}
