/** XXH32 tells apart any two inputs of one length that differ in a single aligned word or a single
    trailing byte: every step from there to the hash is invertible. */
module Xxh32Collisions {
  import opened Leftover
  import opened Mixing
  import opened Words
  import opened Xxh32

  /** The inputs differ, and nowhere but in the aligned four-byte word at this offset. */
  ghost predicate OneWordApart(a: Bytes, b: Bytes, at: nat) {
    && |a| == |b| && a != b
    && at % 4 == 0 && at + 4 <= |a|
    && a[..at] == b[..at] && a[at + 4..] == b[at + 4..]
  }

  /** The inputs differ, and nowhere but in one byte after the last whole word. */
  ghost predicate OneTrailingByteApart(a: Bytes, b: Bytes, at: nat) {
    && |a| == |b| && a != b
    && |a| - |a| % 4 <= at < |a|
    && a[..at] == b[..at] && a[at + 1..] == b[at + 1..]
  }

  ghost predicate Apart(a: Bytes, b: Bytes, at: nat) {
    OneWordApart(a, b, at) || OneTrailingByteApart(a, b, at)
  }

  lemma NoCollision(a: Bytes, b: Bytes, seed: bv32, at: nat)
    requires Apart(a, b, at)
    ensures Hash(a, seed) != Hash(b, seed)
  {
    hide Avalanche, Tail, Body, Rest, Apart;
    if at < |a| - |a| % 16 {
      ApartInStripes(a, b, seed, at);
    } else {
      ApartInRest(a, b, seed, at);
    }
    if Hash(a, seed) == Hash(b, seed) {
      AvalancheInjective(Tail(Body(a, seed), Rest(16, a)), Tail(Body(b, seed), Rest(16, b)));
    }
  }

  lemma ApartInStripes(a: Bytes, b: Bytes, seed: bv32, at: nat)
    requires Apart(a, b, at)
    requires at < |a| - |a| % 16
    ensures Tail(Body(a, seed), Rest(16, a)) != Tail(Body(b, seed), Rest(16, b))
  {
    hide Tail, Rest, InitAccs, LengthWord32, MergeAccs, Consumed, OneLaneApart;
    var p, q := Consumed(InitAccs(seed), a), Consumed(InitAccs(seed), b);
    var lane := ConsumedApart(InitAccs(seed), a, b, at);
    MergeApart(p, q, lane);
    AddInjective(MergeAccs(p), MergeAccs(q), LengthWord32(|a|));
    TailInjective(Body(a, seed), Body(b, seed), Rest(16, a));
  }

  lemma ApartInRest(a: Bytes, b: Bytes, seed: bv32, at: nat)
    requires Apart(a, b, at)
    requires at >= |a| - |a| % 16
    ensures Tail(Body(a, seed), Rest(16, a)) != Tail(Body(b, seed), Rest(16, b))
  {
    hide Tail, Rest, Body, Apart;
    var quads := 4 * (|a| / 16);
    WholeWords(|a|, quads);
    DropApart(a, b, at, 4 * quads);
    SameBody(a, b, seed, 4 * quads);
    RestLength(16, a);
    RestLength(16, b);
    TailApart(Body(a, seed), a[4 * quads..], b[4 * quads..], at - 4 * quads);
  }

  lemma WholeWords(size: nat, quads: nat)
    requires quads == 4 * (size / 16)
    ensures 4 * quads == size - size % 16 && 4 * quads % 4 == 0
  {
    MultipleOfFour(quads);
  }

  lemma MultipleOfFour(k: nat)
    ensures 4 * k % 4 == 0
  {
  }

  lemma SameBody(a: Bytes, b: Bytes, seed: bv32, at: nat)
    requires |a| == |b| && |a| - |a| % 16 <= at <= |a| && a[..at] == b[..at]
    ensures Body(a, seed) == Body(b, seed)
  {
    hide InitAccs, LengthWord32, MergeAccs, Consumed;
    ConsumedEqual(InitAccs(seed), a, b, at);
  }

  // ---- Steps on words ----

  lemma AddInjective(x: bv32, y: bv32, z: bv32)
    ensures Add32(x, z) == Add32(y, z) ==> x == y
    ensures Add32(z, x) == Add32(z, y) ==> x == y
  {
    hide Add32, Sub32;
    AddUndone32(x, z);
    AddUndone32(y, z);
    AddSwaps32(x, z);
    AddSwaps32(y, z);
  }

  lemma RoundInjective(acc: bv32, acc': bv32, input: bv32, input': bv32)
    requires Round(acc, input) == Round(acc', input')
    ensures acc == acc' ==> input == input'
    ensures input == input' ==> acc == acc'
  {
    hide Add32, Mul32, Rotl32;
    var sum, sum' := Add32(acc, Mul32(input, 0x85EBCA77)), Add32(acc', Mul32(input', 0x85EBCA77));
    Mul32ByPrime1(Rotl32(sum, 13));
    Mul32ByPrime1(Rotl32(sum', 13));
    Rotl32By13(sum);
    Rotl32By13(sum');
    AddInjective(acc, acc', Mul32(input, 0x85EBCA77));
    AddInjective(Mul32(input, 0x85EBCA77), Mul32(input', 0x85EBCA77), acc);
    Mul32ByPrime2(input);
    Mul32ByPrime2(input');
  }

  lemma Process4Injective(hash: bv32, hash': bv32, word: bv32, word': bv32)
    requires Process4(hash, word) == Process4(hash', word')
    ensures hash == hash' ==> word == word'
    ensures word == word' ==> hash == hash'
  {
    hide Add32, Mul32, Rotl32;
    var sum, sum' := Add32(hash, Mul32(word, 0xC2B2AE3D)), Add32(hash', Mul32(word', 0xC2B2AE3D));
    Mul32ByPrime4(Rotl32(sum, 17));
    Mul32ByPrime4(Rotl32(sum', 17));
    Rotl32By17(sum);
    Rotl32By17(sum');
    AddInjective(hash, hash', Mul32(word, 0xC2B2AE3D));
    AddInjective(Mul32(word, 0xC2B2AE3D), Mul32(word', 0xC2B2AE3D), hash);
    Mul32ByPrime3(word);
    Mul32ByPrime3(word');
  }

  lemma Process1Injective(hash: bv32, hash': bv32, b: Byte, b': Byte)
    requires Process1(hash, b) == Process1(hash', b')
    ensures hash == hash' ==> b == b'
    ensures b == b' ==> hash == hash'
  {
    hide Add32, Mul32, Rotl32;
    var sum, sum' := Add32(hash, Mul32(b as bv32, 0x165667B1)), Add32(hash', Mul32(b' as bv32, 0x165667B1));
    Mul32ByPrime1(Rotl32(sum, 11));
    Mul32ByPrime1(Rotl32(sum', 11));
    Rotl32By11(sum);
    Rotl32By11(sum');
    AddInjective(hash, hash', Mul32(b as bv32, 0x165667B1));
    AddInjective(Mul32(b as bv32, 0x165667B1), Mul32(b' as bv32, 0x165667B1), hash);
    Mul32ByPrime5(b as bv32);
    Mul32ByPrime5(b' as bv32);
  }

  lemma AvalancheInjective(x: bv32, y: bv32)
    requires Avalanche(x) == Avalanche(y)
    ensures x == y
  {
    hide Avalanche, UnAvalanche;
    AvalancheUndone(x);
    AvalancheUndone(y);
  }

  function UnAvalanche(h: bv32): bv32 {
    UnXorShr32(Mul32(UnXorShr32(Mul32(UnXorShr32(h, 16), 0xA89ED915), 13), 0xB6C92F47), 15)
  }

  lemma AvalancheUndone(x: bv32)
    ensures UnAvalanche(Avalanche(x)) == x && Avalanche(UnAvalanche(x)) == x
  {
    hide XorShr32, UnXorShr32, Mul32;
    var h1 := XorShr32(x, 15);
    var h2 := XorShr32(Mul32(h1, 0x85EBCA77), 13);
    XorShr32By15(x);
    Mul32ByPrime2(h1);
    XorShr32By13(Mul32(h1, 0x85EBCA77));
    Mul32ByPrime3(h2);
    XorShr32By16(Mul32(h2, 0xC2B2AE3D));
    var u1 := UnXorShr32(x, 16);
    var u2 := UnXorShr32(Mul32(u1, 0xA89ED915), 13);
    XorShr32By16(x);
    Mul32ByPrime3(u1);
    XorShr32By13(Mul32(u1, 0xA89ED915));
    Mul32ByPrime2(u2);
    XorShr32By15(Mul32(u2, 0xB6C92F47));
  }

  lemma ReadInjective(s: Bytes, t: Bytes)
    requires |s| == |t| == 4 && ReadLE32(s) == ReadLE32(t)
    ensures s == t
  {
    hide ReadLE32, WriteLE32;
    WriteRead32(s);
    WriteRead32(t);
    assert s == s[..4] && t == t[..4];
  }

  // ---- Lanes ----

  ghost predicate OneLaneApart(p: Lanes, q: Lanes, lane: nat) {
    lane < 4 && p[lane] != q[lane] && forall i :: 0 <= i < 4 && i != lane ==> p[i] == q[i]
  }

  function WordAt(stripe: Stripe, i: nat): bv32
    requires i < 4
  {
    ReadLE32(stripe[4 * i..4 * i + 4])
  }

  lemma RoundAt(p: Lanes, stripe: Stripe, i: nat)
    requires i < 4
    ensures StripeRound(p, stripe)[i] == Round(p[i], WordAt(stripe, i))
  {
    hide Round, ReadLE32;
    if i == 0 {} else if i == 1 {} else if i == 2 {} else {}
  }

  lemma RoundKeepsApart(p: Lanes, q: Lanes, stripe: Stripe, lane: nat)
    requires OneLaneApart(p, q, lane)
    ensures OneLaneApart(StripeRound(p, stripe), StripeRound(q, stripe), lane)
  {
    hide Round, WordAt, StripeRound;
    forall i | 0 <= i < 4
      ensures StripeRound(p, stripe)[i] == Round(p[i], WordAt(stripe, i))
      ensures StripeRound(q, stripe)[i] == Round(q[i], WordAt(stripe, i))
    {
      RoundAt(p, stripe, i);
      RoundAt(q, stripe, i);
    }
    if Round(p[lane], WordAt(stripe, lane)) == Round(q[lane], WordAt(stripe, lane)) {
      RoundInjective(p[lane], q[lane], WordAt(stripe, lane), WordAt(stripe, lane));
    }
  }

  lemma RoundSetsApart(p: Lanes, s: Stripe, t: Stripe, lane: nat)
    requires lane < 4 && s != t
    requires s[..4 * lane] == t[..4 * lane] && s[4 * lane + 4..] == t[4 * lane + 4..]
    ensures OneLaneApart(StripeRound(p, s), StripeRound(p, t), lane)
  {
    hide Round, WordAt, StripeRound;
    WordsApart(s, t, lane);
    forall i | 0 <= i < 4
      ensures StripeRound(p, s)[i] == Round(p[i], WordAt(s, i))
      ensures StripeRound(p, t)[i] == Round(p[i], WordAt(t, i))
    {
      RoundAt(p, s, i);
      RoundAt(p, t, i);
    }
    if Round(p[lane], WordAt(s, lane)) == Round(p[lane], WordAt(t, lane)) {
      RoundInjective(p[lane], p[lane], WordAt(s, lane), WordAt(t, lane));
    }
  }

  lemma WordsApart(s: Stripe, t: Stripe, lane: nat)
    requires lane < 4 && s != t
    requires s[..4 * lane] == t[..4 * lane] && s[4 * lane + 4..] == t[4 * lane + 4..]
    ensures WordAt(s, lane) != WordAt(t, lane)
    ensures forall i :: 0 <= i < 4 && i != lane ==> WordAt(s, i) == WordAt(t, i)
  {
    hide ReadLE32;
    forall i | 0 <= i < 4 && i != lane
      ensures s[4 * i..4 * i + 4] == t[4 * i..4 * i + 4]
    {
      if i < lane {
        assert s[4 * i..4 * i + 4] == s[..4 * lane][4 * i..4 * i + 4];
        assert t[4 * i..4 * i + 4] == t[..4 * lane][4 * i..4 * i + 4];
      } else {
        assert s[4 * i..4 * i + 4] == s[4 * lane + 4..][4 * (i - lane - 1)..4 * (i - lane)];
        assert t[4 * i..4 * i + 4] == t[4 * lane + 4..][4 * (i - lane - 1)..4 * (i - lane)];
      }
    }
    assert s == s[..4 * lane] + s[4 * lane..4 * lane + 4] + s[4 * lane + 4..];
    assert t == t[..4 * lane] + t[4 * lane..4 * lane + 4] + t[4 * lane + 4..];
    if WordAt(s, lane) == WordAt(t, lane) {
      ReadInjective(s[4 * lane..4 * lane + 4], t[4 * lane..4 * lane + 4]);
    }
  }

  lemma {:induction false} ConsumedKeepsApart(p: Lanes, q: Lanes, data: Bytes, lane: nat)
    requires OneLaneApart(p, q, lane)
    ensures OneLaneApart(Consumed(p, data), Consumed(q, data), lane)
    decreases |data|
  {
    hide StripeRound;
    if |data| >= 16 {
      RoundKeepsApart(p, q, data[..16], lane);
      ConsumedKeepsApart(StripeRound(p, data[..16]), StripeRound(q, data[..16]), data[16..], lane);
    }
  }

  lemma WordInFirstStripe(a: Bytes, b: Bytes, at: nat)
    requires OneWordApart(a, b, at) && at < 16 <= |a|
    ensures var lane := at / 4;
            && lane < 4 && |b| >= 16 && a[16..] == b[16..] && a[..16] != b[..16]
            && a[..16][..4 * lane] == b[..16][..4 * lane] && a[..16][4 * lane + 4..] == b[..16][4 * lane + 4..]
  {
    assert a[16..] == a[at + 4..][12 - at..] && b[16..] == b[at + 4..][12 - at..];
    assert a[..16] != b[..16] by {
      assert a == a[..16] + a[16..] && b == b[..16] + b[16..];
    }
    assert a[..16][..at] == a[..at] && b[..16][..at] == b[..at];
    assert a[..16][at + 4..] == a[at + 4..][..12 - at] && b[..16][at + 4..] == b[at + 4..][..12 - at];
  }

  lemma WordPastFirstStripe(a: Bytes, b: Bytes, at: nat)
    requires OneWordApart(a, b, at) && at >= 16
    ensures |a| == |b| >= 16 && a[..16] == b[..16] && OneWordApart(a[16..], b[16..], at - 16)
  {
    assert a[..16] == a[..at][..16] && b[..16] == b[..at][..16];
    assert a == a[..16] + a[16..] && b == b[..16] + b[16..];
    assert a[16..][..at - 16] == a[..at][16..] && b[16..][..at - 16] == b[..at][16..];
    assert a[16..][at - 12..] == a[at + 4..] && b[16..][at - 12..] == b[at + 4..];
  }

  /** A word apart in a consumed stripe puts exactly its own lane apart, to the end; the rest is the same. */
  lemma {:induction false} ConsumedApart(p: Lanes, a: Bytes, b: Bytes, at: nat) returns (lane: nat)
    requires OneWordApart(a, b, at) && at < |a| - |a| % 16
    ensures OneLaneApart(Consumed(p, a), Consumed(p, b), lane) && Rest(16, a) == Rest(16, b)
    decreases |a|
  {
    hide StripeRound, OneLaneApart, OneWordApart;
    if at < 16 {
      lane := at / 4;
      WordInFirstStripe(a, b, at);
      RoundSetsApart(p, a[..16], b[..16], lane);
      ConsumedKeepsApart(StripeRound(p, a[..16]), StripeRound(p, b[..16]), a[16..], lane);
    } else {
      WordPastFirstStripe(a, b, at);
      lane := ConsumedApart(StripeRound(p, a[..16]), a[16..], b[16..], at - 16);
    }
  }

  /** Inputs that only differ in the rest are consumed to the same lanes. */
  lemma {:induction false} ConsumedEqual(p: Lanes, a: Bytes, b: Bytes, at: nat)
    requires |a| == |b| && |a| - |a| % 16 <= at <= |a| && a[..at] == b[..at]
    ensures Consumed(p, a) == Consumed(p, b)
    decreases |a|
  {
    hide StripeRound;
    if |a| >= 16 {
      assert a[..16] == a[..at][..16] && b[..16] == b[..at][..16];
      assert a[16..][..at - 16] == a[..at][16..] && b[16..][..at - 16] == b[..at][16..];
      ConsumedEqual(StripeRound(p, a[..16]), a[16..], b[16..], at - 16);
    }
  }

  /** The merge is a sum of rotated lanes: one lane apart, it is apart. */
  lemma MergeApart(p: Lanes, q: Lanes, lane: nat)
    requires OneLaneApart(p, q, lane)
    ensures MergeAccs(p) != MergeAccs(q)
  {
    hide Add32, Rotl32;
    var a, b, c, d := Rotl32(p[0], 1), Rotl32(p[1], 7), Rotl32(p[2], 12), Rotl32(p[3], 18);
    var a', b', c', d' := Rotl32(q[0], 1), Rotl32(q[1], 7), Rotl32(q[2], 12), Rotl32(q[3], 18);
    Rotl32By1(p[0]); Rotl32By1(q[0]);
    Rotl32By7(p[1]); Rotl32By7(q[1]);
    Rotl32By12(p[2]); Rotl32By12(q[2]);
    Rotl32By18(p[3]); Rotl32By18(q[3]);
    AddInjective(Add32(Add32(a, b), c), Add32(Add32(a', b'), c'), d);
    AddInjective(d, d', Add32(Add32(a, b), c));
    AddInjective(Add32(a, b), Add32(a', b'), c);
    AddInjective(c, c', Add32(a, b));
    AddInjective(a, a', b);
    AddInjective(b, b', a);
  }

  // ---- Tails ----

  lemma {:induction false} TailInjective(h: bv32, h': bv32, tail: Bytes)
    requires h != h'
    ensures Tail(h, tail) != Tail(h', tail)
    decreases |tail|
  {
    hide Process1, Process4, ReadLE32;
    if |tail| >= 4 {
      var word := ReadLE32(tail[..4]);
      if Process4(h, word) == Process4(h', word) { Process4Injective(h, h', word, word); }
      TailInjective(Process4(h, word), Process4(h', word), tail[4..]);
    } else if |tail| > 0 {
      if Process1(h, tail[0]) == Process1(h', tail[0]) { Process1Injective(h, h', tail[0], tail[0]); }
      TailInjective(Process1(h, tail[0]), Process1(h', tail[0]), tail[1..]);
    }
  }

  lemma {:induction false} TailApart(h: bv32, a: Bytes, b: Bytes, at: nat)
    requires Apart(a, b, at)
    ensures Tail(h, a) != Tail(h, b)
    decreases |a|
  {
    hide Process1, Process4, ReadLE32, Apart;
    ApartSize(a, b, at);
    if |a| >= 4 {
      var word, word' := ReadLE32(a[..4]), ReadLE32(b[..4]);
      if at == 0 {
        FirstWordApart(a, b);
        if Process4(h, word) == Process4(h, word') { Process4Injective(h, h, word, word'); }
        TailInjective(Process4(h, word), Process4(h, word'), a[4..]);
      } else {
        DropApart(a, b, at, 4);
        TailApart(Process4(h, word), a[4..], b[4..], at - 4);
      }
    } else {
      if at == 0 {
        FirstByteApart(a, b);
        if Process1(h, a[0]) == Process1(h, b[0]) { Process1Injective(h, h, a[0], b[0]); }
        TailInjective(Process1(h, a[0]), Process1(h, b[0]), a[1..]);
      } else {
        DropApart(a, b, at, 1);
        TailApart(Process1(h, a[0]), a[1..], b[1..], at - 1);
      }
    }
  }

  lemma ApartSize(a: Bytes, b: Bytes, at: nat)
    requires Apart(a, b, at)
    ensures |a| == |b| && at < |a| && (|a| >= 4 && at < 4 ==> at == 0)
  {
  }

  lemma FirstWordApart(a: Bytes, b: Bytes)
    requires Apart(a, b, 0) && |a| >= 4
    ensures a[4..] == b[4..] && ReadLE32(a[..4]) != ReadLE32(b[..4])
  {
    hide ReadLE32;
    assert a == a[..4] + a[4..] && b == b[..4] + b[4..];
    if ReadLE32(a[..4]) == ReadLE32(b[..4]) {
      ReadInjective(a[..4], b[..4]);
    }
  }

  lemma FirstByteApart(a: Bytes, b: Bytes)
    requires Apart(a, b, 0) && |a| < 4
    ensures a[1..] == b[1..] && a[0] != b[0]
  {
    assert a == [a[0]] + a[1..] && b == [b[0]] + b[1..];
  }

  /** Dropping equal bytes in front, by whole words as long as there are any, leaves the inputs apart. */
  lemma DropApart(a: Bytes, b: Bytes, at: nat, n: nat)
    requires Apart(a, b, at) && n <= at && (n % 4 == 0 || |a| < 4)
    ensures |a| == |b| && n < |a| && a[..n] == b[..n]
    ensures Apart(a[n..], b[n..], at - n)
  {
    hide OneWordApart, OneTrailingByteApart;
    if OneWordApart(a, b, at) {
      DropBeforeWord(a, b, at, n);
    } else {
      DropBeforeByte(a, b, at, n);
    }
  }

  lemma DropBeforeWord(a: Bytes, b: Bytes, at: nat, n: nat)
    requires OneWordApart(a, b, at) && n <= at && (n % 4 == 0 || |a| < 4)
    ensures |a| == |b| && n < |a| && a[..n] == b[..n]
    ensures OneWordApart(a[n..], b[n..], at - n)
  {
    DropEqual(a, b, at, n);
    assert a[n..][at - n + 4..] == a[at + 4..] && b[n..][at - n + 4..] == b[at + 4..];
  }

  lemma DropBeforeByte(a: Bytes, b: Bytes, at: nat, n: nat)
    requires OneTrailingByteApart(a, b, at) && n <= at && (n % 4 == 0 || |a| < 4)
    ensures |a| == |b| && n < |a| && a[..n] == b[..n]
    ensures OneTrailingByteApart(a[n..], b[n..], at - n)
  {
    DropEqual(a, b, at, n);
    TrailingPart(|a|, n, at);
    assert a[n..][at - n + 1..] == a[at + 1..] && b[n..][at - n + 1..] == b[at + 1..];
  }

  lemma DropEqual(a: Bytes, b: Bytes, at: nat, n: nat)
    requires |a| == |b| && a != b && n <= at <= |a| && a[..at] == b[..at]
    ensures a[..n] == b[..n] && a[n..] != b[n..] && a[n..][..at - n] == b[n..][..at - n]
  {
    assert a[..n] == a[..at][..n] && b[..n] == b[..at][..n];
    assert a == a[..n] + a[n..] && b == b[..n] + b[n..];
    assert a[n..][..at - n] == a[..at][n..] && b[n..][..at - n] == b[..at][n..];
  }

  lemma TrailingPart(len: nat, n: nat, at: nat)
    requires n <= at < len && (n % 4 == 0 || len < 4) && len - len % 4 <= at
    ensures (len - n) - (len - n) % 4 <= at - n
  {
    if n % 4 == 0 {
      var k, q := n / 4, len / 4;
      assert len - n == 4 * (q - k) + len % 4;
    }
  }
}
