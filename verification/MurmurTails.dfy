/** MurmurHash3's tails: they are mixed in as the zero-padded block, and the length keeps keys apart that differ in zeros at the end. */
module MurmurTails {
  import opened Leftover
  import opened Mixing
  import opened Words
  import BlockMixer
  import X32 = Murmur3x86_32
  import X64 = Murmur3x64_128
  import X128 = Murmur3x86_128

  // ---- Lengths ----

  lemma Bit1Of32(n: nat, m: nat)
    requires n < TWO_32 && m < TWO_32 && n as bv32 == m as bv32
    ensures n % 2 == m % 2
  {
  }

  lemma Bit2Of32(n: nat, m: nat)
    requires n < TWO_32 && m < TWO_32 && n as bv32 == m as bv32
    ensures n / 2 % 2 == m / 2 % 2
  {
  }

  lemma Bit4Of32(n: nat, m: nat)
    requires n < TWO_32 && m < TWO_32 && n as bv32 == m as bv32
    ensures n / 4 % 2 == m / 4 % 2
  {
  }

  lemma Bit8Of32(n: nat, m: nat)
    requires n < TWO_32 && m < TWO_32 && n as bv32 == m as bv32
    ensures n / 8 % 2 == m / 8 % 2
  {
  }

  lemma Bit1Of64(n: nat, m: nat)
    requires n < TWO_64 && m < TWO_64 && n as bv64 == m as bv64
    ensures n % 2 == m % 2
  {
  }

  lemma Bit2Of64(n: nat, m: nat)
    requires n < TWO_64 && m < TWO_64 && n as bv64 == m as bv64
    ensures n / 2 % 2 == m / 2 % 2
  {
  }

  lemma Bit4Of64(n: nat, m: nat)
    requires n < TWO_64 && m < TWO_64 && n as bv64 == m as bv64
    ensures n / 4 % 2 == m / 4 % 2
  {
  }

  lemma Bit8Of64(n: nat, m: nat)
    requires n < TWO_64 && m < TWO_64 && n as bv64 == m as bv64
    ensures n / 8 % 2 == m / 8 % 2
  {
  }

  lemma HalfOf16(n: nat)
    ensures n % 16 == n % 2 + 2 * (n / 2 % 8)
  {
  }

  lemma HalfOf8(n: nat)
    ensures n % 8 == n % 2 + 2 * (n / 2 % 4)
  {
  }

  lemma HalfOf4(n: nat)
    ensures n % 4 == n % 2 + 2 * (n / 2 % 2)
  {
  }

  lemma Halves(n: nat)
    ensures n / 2 / 2 == n / 4 && n / 4 / 2 == n / 8
  {
  }

  lemma FourBits(n: nat)
    ensures n % 16 == n % 2 + 2 * (n / 2 % 2) + 4 * (n / 4 % 2) + 8 * (n / 8 % 2)
  {
    Halves(n);
    HalfOf16(n);
    HalfOf8(n / 2);
    HalfOf4(n / 4);
  }

  lemma WrapKeepsLowBits(n: nat)
    ensures Wrap32(n) % 16 == n % 16 && Wrap64(n) % 16 == n % 16
  {
  }

  function Word32(n: nat): bv32
    requires n < TWO_32
  {
    n as bv32
  }

  function Word64(n: nat): bv64
    requires n < TWO_64
  {
    n as bv64
  }

  lemma LowBits32(n: nat, m: nat)
    requires n < TWO_32 && m < TWO_32 && Word32(n) == Word32(m)
    ensures n % 16 == m % 16
  {
    FourBits(n);
    FourBits(m);
    Bit1Of32(n, m);
    Bit2Of32(n, m);
    Bit4Of32(n, m);
    Bit8Of32(n, m);
    hide Word32;
  }

  lemma LowBits64(n: nat, m: nat)
    requires n < TWO_64 && m < TWO_64 && Word64(n) == Word64(m)
    ensures n % 16 == m % 16
  {
    FourBits(n);
    FourBits(m);
    Bit1Of64(n, m);
    Bit2Of64(n, m);
    Bit4Of64(n, m);
    Bit8Of64(n, m);
    hide Word64;
  }

  lemma AsWords(n: nat)
    ensures LengthWord32(n) == Word32(Wrap32(n)) && LengthWord64(n) == Word64(Wrap64(n))
  {
    hide Wrap32, Wrap64;
  }

  /** Lengths that differ modulo 16 are different words. */
  lemma LengthsDiffer(n: nat, m: nat)
    requires n % 16 != m % 16
    ensures LengthWord32(n) != LengthWord32(m) && LengthWord64(n) != LengthWord64(m)
  {
    hide LengthWord32, LengthWord64, Wrap32, Wrap64, Word32, Word64;
    WrapKeepsLowBits(n);
    WrapKeepsLowBits(m);
    AsWords(n);
    AsWords(m);
    if LengthWord32(n) == LengthWord32(m) { LowBits32(Wrap32(n), Wrap32(m)); }
    if LengthWord64(n) == LengthWord64(m) { LowBits64(Wrap64(n), Wrap64(m)); }
  }

  // ---- Parts of a word ----

  lemma JoinedIsRead32(a: Byte, b: Byte, c: Byte, d: Byte)
    ensures Join32(a, b, c, d) == ReadLE32([a, b, c, d])
  {
  }

  lemma JoinedIsRead64(a: Byte, b: Byte, c: Byte, d: Byte, e: Byte, f: Byte, g: Byte, h: Byte)
    ensures Join64(a, b, c, d, e, f, g, h) == ReadLE64([a, b, c, d, e, f, g, h])
  {
  }

  lemma PaddedAt(s: Bytes, w: nat)
    requires |s| <= w
    ensures forall i :: 0 <= i < w ==> (s + Zeros(w - |s|))[i] == ByteOrZero(s, i)
  {
  }

  lemma Display4(t: Bytes)
    requires |t| == 4
    ensures t == [t[0], t[1], t[2], t[3]]
  {
  }

  lemma Display8(t: Bytes)
    requires |t| == 8
    ensures t == [t[0], t[1], t[2], t[3], t[4], t[5], t[6], t[7]]
  {
  }

  lemma PartIsPadded32(s: Bytes)
    requires |s| <= 4
    ensures PartLE32(s) == ReadLE32(s + Zeros(4 - |s|))
  {
    hide ReadLE32, Join32, ByteOrZero;
    JoinedIsRead32(ByteOrZero(s, 0), ByteOrZero(s, 1), ByteOrZero(s, 2), ByteOrZero(s, 3));
    PaddedAt(s, 4);
    Display4(s + Zeros(4 - |s|));
  }

  lemma PartIsPadded64(s: Bytes)
    requires |s| <= 8
    ensures PartLE64(s) == ReadLE64(s + Zeros(8 - |s|))
  {
    hide ReadLE64, Join64, ByteOrZero;
    JoinedIsRead64(ByteOrZero(s, 0), ByteOrZero(s, 1), ByteOrZero(s, 2), ByteOrZero(s, 3), ByteOrZero(s, 4), ByteOrZero(s, 5), ByteOrZero(s, 6),
                   ByteOrZero(s, 7));
    PaddedAt(s, 8);
    Display8(s + Zeros(8 - |s|));
  }

  lemma ZeroWords()
    ensures ReadLE32([0, 0, 0, 0]) == 0 && ReadLE64([0, 0, 0, 0, 0, 0, 0, 0]) == 0
  {
  }

  lemma ZerosRead()
    ensures ReadLE32(Zeros(4)) == 0 && ReadLE64(Zeros(8)) == 0
  {
    hide ReadLE32, ReadLE64;
    ZeroWords();
    assert Zeros(4) == [0, 0, 0, 0] && Zeros(8) == [0, 0, 0, 0, 0, 0, 0, 0];
  }

  lemma XorNothing32(x: bv32)
    ensures Xor32(x, 0) == x
  {
  }

  lemma XorNothing64(x: bv64)
    ensures Xor64(x, 0) == x
  {
  }

  // ---- Keys with zeros at the end ----

  lemma Whole4(n: nat)
    ensures (n - n % 4) % 4 == 0
  {
  }

  lemma Whole16(n: nat)
    ensures (n - n % 16) % 16 == 0
  {
  }

  lemma CutThere(key: Bytes, c: nat, more: Bytes)
    requires c <= |key|
    ensures key == key[..c] + key[c..] && key + more == key[..c] + (key[c..] + more)
  {
  }

  lemma RestSmall(w: nat, s: Bytes)
    requires |s| < w
    ensures Rest(w, s) == s
  {
  }

  lemma RestGrows(w: nat, key: Bytes, more: Bytes)
    requires w > 0 && |key| % w + |more| < w
    ensures Rest(w, key + more) == Rest(w, key) + more
    ensures |Rest(w, key)| == |key| % w && Rest(w, key) == key[|key| - |key| % w..]
  {
    hide Rest;
    RestLength(w, key);
    RestConcat(w, key, more);
    RestSmall(w, Rest(w, key) + more);
  }

  /** A key is its whole blocks and its rest. */
  lemma Cut(w: nat, key: Bytes, more: Bytes)
    requires w > 0 && |key| % w + |more| < w
    ensures var c := |key| - |key| % w; key == key[..c] + Rest(w, key) && key + more == key[..c] + (Rest(w, key) + more)
    ensures |Rest(w, key)| == |key| % w && Rest(w, key + more) == Rest(w, key) + more
  {
    hide Rest;
    RestGrows(w, key, more);
    CutThere(key, |key| - |key| % w, more);
  }

  lemma MorePadding(t: Bytes, n: nat, w: nat)
    requires |t| + n <= w
    ensures (t + Zeros(n)) + Zeros(w - |t| - n) == t + Zeros(w - |t|)
  {
  }

  // ---- 32 bits ----

  lemma NothingScrambled32()
    ensures X32.Scrambled(0) == 0
  {
  }

  /** The tail is mixed in as the block that zeros complete. */
  lemma TailIsPadded32(h: bv32, tail: Bytes)
    requires |tail| < 4
    ensures X32.WithTail(h, tail) == Xor32(h, X32.Scrambled(ReadLE32(tail + Zeros(4 - |tail|))))
  {
    hide X32.Scrambled, Xor32, PartLE32, ReadLE32;
    PartIsPadded32(tail);
    if tail == [] {
      assert [] + Zeros(4) == Zeros(4);
      ZerosRead();
      NothingScrambled32();
      XorNothing32(h);
    }
  }

  lemma NoBlocks32(t: Bytes)
    requires |t| < 4
    ensures X32.Blocks(t) == []
  {
  }

  lemma SameBlocks32(key: Bytes, n: nat)
    requires |key| % 4 + n < 4
    ensures X32.Blocks(key + Zeros(n)) == X32.Blocks(key)
  {
    hide X32.Blocks, Rest, Zeros;
    Cut(4, key, Zeros(n));
    Whole4(|key|);
    var a, t := key[..|key| - |key| % 4], Rest(4, key);
    X32.BlocksConcat(a, t);
    X32.BlocksConcat(a, t + Zeros(n));
    NoBlocks32(t);
    NoBlocks32(t + Zeros(n));
  }

  lemma SameTail32(h: bv32, t: Bytes, n: nat)
    requires |t| + n < 4
    ensures X32.WithTail(h, t + Zeros(n)) == X32.WithTail(h, t)
  {
    hide X32.WithTail, X32.Scrambled, Xor32, ReadLE32, Zeros;
    TailIsPadded32(h, t);
    TailIsPadded32(h, t + Zeros(n));
    MorePadding(t, n, 4);
  }

  /** Two keys that differ only in zeros at the end of the tail never collide. */
  lemma TrailingZeros32(key: Bytes, n: nat, seed: bv32)
    requires 0 < n && |key| % 4 + n < 4
    ensures X32.Hash(key + Zeros(n), seed) != X32.Hash(key, seed)
  {
    hide X32.Blocks, X32.Fmix, X32.Unfmix, Xor32, LengthWord32, Rest, X32.WithTail, X32.BlockStep, BlockMixer.Fold, Zeros;
    SameBlocks32(key, n);
    Cut(4, key, Zeros(n));
    LengthsDiffer(|key|, |key| + n);
    var t, h := Rest(4, key), BlockMixer.Fold(X32.BlockStep(), seed, X32.Blocks(key));
    SameTail32(h, t, n);
    var x, l, m := X32.WithTail(h, t), LengthWord32(|key|), LengthWord32(|key| + n);
    X32.FmixUndone(Xor32(x, l));
    X32.FmixUndone(Xor32(x, m));
    XorUndone32(l, x);
    XorUndone32(m, x);
  }

  // ---- 128 bits on 64-bit words ----

  lemma NothingScrambled64()
    ensures X64.Scrambled1(0) == 0 && X64.Scrambled2(0) == 0
  {
  }

  function MixedIn64(h: X64.Pair, k: X64.Pair): X64.Pair {
    X64.Pair(Xor64(h.x1, X64.Scrambled1(k.x1)), Xor64(h.x2, X64.Scrambled2(k.x2)))
  }

  lemma Padding64(tail: Bytes)
    requires |tail| < 16
    ensures var (first, second) := (if |tail| > 8 then tail[..8] else tail, if |tail| > 8 then tail[8..] else []);
            X64.ReadBlock(tail + Zeros(16 - |tail|)) == X64.Pair(PartLE64(first), PartLE64(second))
  {
    hide ReadLE64, PartLE64;
    var first, second := if |tail| > 8 then tail[..8] else tail, if |tail| > 8 then tail[8..] else [];
    PartIsPadded64(first);
    PartIsPadded64(second);
    var block := tail + Zeros(16 - |tail|);
    assert block[0..8] == first + Zeros(8 - |first|);
    assert block[8..16] == second + Zeros(8 - |second|);
  }

  lemma NoPart64()
    ensures PartLE64([]) == 0
  {
  }

  /** The tail is mixed in as the block that zeros complete. */
  lemma TailIsPadded64(h: X64.Pair, tail: Bytes)
    requires |tail| < 16
    ensures X64.WithTail(h, tail) == MixedIn64(h, X64.ReadBlock(tail + Zeros(16 - |tail|)))
  {
    hide Xor64, PartLE64, X64.ReadBlock, X64.Scrambled1, X64.Scrambled2;
    Padding64(tail);
    NoPart64();
    NothingScrambled64();
    XorNothing64(h.x1);
    XorNothing64(h.x2);
  }

  lemma NoBlocks64(t: Bytes)
    requires |t| < 16
    ensures X64.Blocks(t) == []
  {
  }

  lemma SameBlocks64(key: Bytes, n: nat)
    requires |key| % 16 + n < 16
    ensures X64.Blocks(key + Zeros(n)) == X64.Blocks(key)
  {
    hide X64.Blocks, Rest, Zeros;
    Cut(16, key, Zeros(n));
    Whole16(|key|);
    var a, t := key[..|key| - |key| % 16], Rest(16, key);
    X64.BlocksConcat(a, t);
    X64.BlocksConcat(a, t + Zeros(n));
    NoBlocks64(t);
    NoBlocks64(t + Zeros(n));
  }

  lemma SameTail64(h: X64.Pair, t: Bytes, n: nat)
    requires |t| + n < 16
    ensures X64.WithTail(h, t + Zeros(n)) == X64.WithTail(h, t)
  {
    hide X64.WithTail, MixedIn64, X64.ReadBlock, Zeros;
    TailIsPadded64(h, t);
    TailIsPadded64(h, t + Zeros(n));
    MorePadding(t, n, 16);
  }

  lemma LengthShows64(h: X64.Pair, l: bv64, m: bv64)
    requires X64.WithLength(h, l) == X64.WithLength(h, m)
    ensures l == m
  {
    hide Xor64;
    XorUndone64(l, h.x1);
    XorUndone64(m, h.x1);
  }

  /** Two keys that differ only in zeros at the end of the tail never collide. */
  lemma TrailingZeros64(key: Bytes, n: nat, seed: bv32)
    requires 0 < n && |key| % 16 + n < 16
    ensures X64.Hash(key + Zeros(n), seed) != X64.Hash(key, seed)
  {
    hide X64.Blocks, Rest, X64.WithTail, X64.WithLength, X64.Avalanched, X64.Unavalanched, X64.Summed, X64.Unsummed, LengthWord64, X64.BlockStep,
         BlockMixer.Fold, Zeros;
    SameBlocks64(key, n);
    Cut(16, key, Zeros(n));
    LengthsDiffer(|key|, |key| + n);
    var t, h := Rest(16, key), BlockMixer.Fold(X64.BlockStep(), X64.Pair(seed as bv64, seed as bv64), X64.Blocks(key));
    SameTail64(h, t, n);
    var a, b := X64.WithLength(X64.WithTail(h, t), LengthWord64(|key|)), X64.WithLength(X64.WithTail(h, t), LengthWord64(|key| + n));
    X64.SummedUndone(a);
    X64.SummedUndone(b);
    X64.AvalanchedUndone(X64.Summed(a));
    X64.AvalanchedUndone(X64.Summed(b));
    X64.SummedUndone(X64.Avalanched(X64.Summed(a)));
    X64.SummedUndone(X64.Avalanched(X64.Summed(b)));
    if a == b { LengthShows64(X64.WithTail(h, t), LengthWord64(|key|), LengthWord64(|key| + n)); }
  }

  // ---- 128 bits on 32-bit words ----

  lemma NothingScrambled128()
    ensures X128.Scrambled1(0) == 0 && X128.Scrambled2(0) == 0 && X128.Scrambled3(0) == 0 && X128.Scrambled4(0) == 0
  {
  }

  function MixedIn128(h: X128.Quad, k: X128.Quad): X128.Quad {
    X128.Quad(Xor32(h.x1, X128.Scrambled1(k.x1)), Xor32(h.x2, X128.Scrambled2(k.x2)),
              Xor32(h.x3, X128.Scrambled3(k.x3)), Xor32(h.x4, X128.Scrambled4(k.x4)))
  }

  /** The tail's part in the word that begins at a byte. */
  function PartAt(tail: Bytes, at: nat): (s: Bytes)
    ensures |s| <= 4
  {
    if |tail| <= at then [] else if |tail| <= at + 4 then tail[at..] else tail[at..at + 4]
  }

  lemma PartPadded(tail: Bytes, at: nat)
    requires |tail| < 16 && at + 4 <= 16
    ensures (tail + Zeros(16 - |tail|))[at..at + 4] == PartAt(tail, at) + Zeros(4 - |PartAt(tail, at)|)
  {
  }

  lemma Padding128(tail: Bytes)
    requires |tail| < 16
    ensures X128.ReadBlock(tail + Zeros(16 - |tail|))
            == X128.Quad(PartLE32(PartAt(tail, 0)), PartLE32(PartAt(tail, 4)), PartLE32(PartAt(tail, 8)), PartLE32(PartAt(tail, 12)))
  {
    hide ReadLE32, PartLE32, PartAt, Zeros;
    PartIsPadded32(PartAt(tail, 0));
    PartIsPadded32(PartAt(tail, 4));
    PartIsPadded32(PartAt(tail, 8));
    PartIsPadded32(PartAt(tail, 12));
    PartPadded(tail, 0);
    PartPadded(tail, 4);
    PartPadded(tail, 8);
    PartPadded(tail, 12);
  }

  lemma NoPart32()
    ensures PartLE32([]) == 0
  {
  }

  /** The tail is mixed in as the block that zeros complete. */
  lemma TailIsPadded128(h: X128.Quad, tail: Bytes)
    requires |tail| < 16
    ensures X128.WithTail(h, tail) == MixedIn128(h, X128.ReadBlock(tail + Zeros(16 - |tail|)))
  {
    hide Xor32, PartLE32, X128.ReadBlock, X128.Scrambled1, X128.Scrambled2, X128.Scrambled3, X128.Scrambled4;
    Padding128(tail);
    NoPart32();
    NothingScrambled128();
    XorNothing32(h.x1);
    XorNothing32(h.x2);
    XorNothing32(h.x3);
    XorNothing32(h.x4);
    FromTheStart(tail);
  }

  lemma FromTheStart(tail: Bytes)
    ensures tail[0..] == tail && (|tail| > 4 ==> tail[0..4] == tail[..4])
  {
  }

  lemma NoBlocks128(t: Bytes)
    requires |t| < 16
    ensures X128.Blocks(t) == []
  {
  }

  lemma SameBlocks128(key: Bytes, n: nat)
    requires |key| % 16 + n < 16
    ensures X128.Blocks(key + Zeros(n)) == X128.Blocks(key)
  {
    hide X128.Blocks, Rest, Zeros;
    Cut(16, key, Zeros(n));
    Whole16(|key|);
    var a, t := key[..|key| - |key| % 16], Rest(16, key);
    X128.BlocksConcat(a, t);
    X128.BlocksConcat(a, t + Zeros(n));
    NoBlocks128(t);
    NoBlocks128(t + Zeros(n));
  }

  lemma SameTail128(h: X128.Quad, t: Bytes, n: nat)
    requires |t| + n < 16
    ensures X128.WithTail(h, t + Zeros(n)) == X128.WithTail(h, t)
  {
    hide X128.WithTail, MixedIn128, X128.ReadBlock, Zeros;
    TailIsPadded128(h, t);
    TailIsPadded128(h, t + Zeros(n));
    MorePadding(t, n, 16);
  }

  lemma LengthShows128(h: X128.Quad, l: bv32, m: bv32)
    requires X128.WithLength(h, l) == X128.WithLength(h, m)
    ensures l == m
  {
    hide Xor32;
    XorUndone32(l, h.x1);
    XorUndone32(m, h.x1);
  }

  /** Two keys that differ only in zeros at the end of the tail never collide. */
  lemma TrailingZeros128(key: Bytes, n: nat, seed: bv32)
    requires 0 < n && |key| % 16 + n < 16
    ensures X128.Hash(key + Zeros(n), seed) != X128.Hash(key, seed)
  {
    hide X128.Blocks, Rest, X128.WithTail, X128.WithLength, X128.Avalanched, X128.Unavalanched, X128.Summed, X128.Unsummed, LengthWord32,
         X128.BlockStep, BlockMixer.Fold, Zeros;
    SameBlocks128(key, n);
    Cut(16, key, Zeros(n));
    LengthsDiffer(|key|, |key| + n);
    var t, h := Rest(16, key), BlockMixer.Fold(X128.BlockStep(), X128.Start(seed), X128.Blocks(key));
    SameTail128(h, t, n);
    var a, b := X128.WithLength(X128.WithTail(h, t), LengthWord32(|key|)), X128.WithLength(X128.WithTail(h, t), LengthWord32(|key| + n));
    X128.SummedUndone(a);
    X128.SummedUndone(b);
    X128.AvalanchedUndone(X128.Summed(a));
    X128.AvalanchedUndone(X128.Summed(b));
    X128.SummedUndone(X128.Avalanched(X128.Summed(a)));
    X128.SummedUndone(X128.Avalanched(X128.Summed(b)));
    if a == b { LengthShows128(X128.WithTail(h, t), LengthWord32(|key|), LengthWord32(|key| + n)); }
  }
}
