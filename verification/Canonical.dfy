/** The canonical, big-endian form of a hash, and the order of 128-bit hashes. */
module Canonical {
  import opened Products
  import opened Words

  // ---- Memory as the processor sees it ----

  function WriteBE32(v: bv32): (s: Bytes)
    ensures |s| == 4
  {
    [((v >> 24) & 0xFF) as Byte, ((v >> 16) & 0xFF) as Byte, ((v >> 8) & 0xFF) as Byte, (v & 0xFF) as Byte]
  }

  function WriteBE64(v: bv64): (s: Bytes)
    ensures |s| == 8
  {
    [((v >> 56) & 0xFF) as Byte, ((v >> 48) & 0xFF) as Byte, ((v >> 40) & 0xFF) as Byte, ((v >> 32) & 0xFF) as Byte,
     ((v >> 24) & 0xFF) as Byte, ((v >> 16) & 0xFF) as Byte, ((v >> 8) & 0xFF) as Byte, (v & 0xFF) as Byte]
  }

  function ReadBE32(s: Bytes): bv32
    requires |s| >= 4
  {
    ((s[0] as bv32) << 24) | ((s[1] as bv32) << 16) | ((s[2] as bv32) << 8) | (s[3] as bv32)
  }

  function ReadBE64(s: Bytes): bv64
    requires |s| >= 8
  {
    ((s[0] as bv64) << 56) | ((s[1] as bv64) << 48) | ((s[2] as bv64) << 40) | ((s[3] as bv64) << 32)
    | ((s[4] as bv64) << 24) | ((s[5] as bv64) << 16) | ((s[6] as bv64) << 8) | (s[7] as bv64)
  }

  function Store32(littleEndian: bool, v: bv32): (s: Bytes)
    ensures |s| == 4
  {
    if littleEndian then WriteLE32(v) else WriteBE32(v)
  }

  function Store64(littleEndian: bool, v: bv64): (s: Bytes)
    ensures |s| == 8
  {
    if littleEndian then WriteLE64(v) else WriteBE64(v)
  }

  function Load32(littleEndian: bool, s: Bytes): bv32
    requires |s| >= 4
  {
    if littleEndian then ReadLE32(s) else ReadBE32(s)
  }

  function Load64(littleEndian: bool, s: Bytes): bv64
    requires |s| >= 8
  {
    if littleEndian then ReadLE64(s) else ReadBE64(s)
  }

  // ---- The conversions ----

  function CanonicalFromHash32(littleEndian: bool, hash: bv32): Bytes {
    Store32(littleEndian, if littleEndian then Swap32(hash) else hash)
  }

  function HashFromCanonical32(littleEndian: bool, src: Bytes): bv32
    requires |src| >= 4
  {
    var v := Load32(littleEndian, src);
    if littleEndian then Swap32(v) else v
  }

  function CanonicalFromHash64(littleEndian: bool, hash: bv64): Bytes {
    Store64(littleEndian, if littleEndian then Swap64(hash) else hash)
  }

  function HashFromCanonical64(littleEndian: bool, src: Bytes): bv64
    requires |src| >= 8
  {
    var v := Load64(littleEndian, src);
    if littleEndian then Swap64(v) else v
  }

  function CanonicalFromHash128(littleEndian: bool, hash: Hash128): Bytes {
    var high := if littleEndian then Swap64(hash.high64) else hash.high64;
    var low := if littleEndian then Swap64(hash.low64) else hash.low64;
    Store64(littleEndian, high) + Store64(littleEndian, low)
  }

  function HashFromCanonical128(littleEndian: bool, src: Bytes): Hash128
    requires |src| >= 16
  {
    Hash128(HashFromCanonical64(littleEndian, src[8..]), HashFromCanonical64(littleEndian, src))
  }

  lemma SwappedBytes32(v: bv32)
    ensures WriteLE32(Swap32(v)) == WriteBE32(v)
  {
  }

  lemma SwappedBytes64(v: bv64)
    ensures WriteLE64(Swap64(v)) == WriteBE64(v)
  {
  }

  lemma SwappedRead32(s: Bytes)
    requires |s| >= 4
    ensures Swap32(ReadLE32(s)) == ReadBE32(s)
  {
  }

  lemma SwappedRead64(s: Bytes)
    requires |s| >= 8
    ensures Swap64(ReadLE64(s)) == ReadBE64(s)
  {
  }

  lemma BigEndianRoundTrip32(v: bv32, s: Bytes)
    requires |s| == 4
    ensures ReadBE32(WriteBE32(v)) == v && WriteBE32(ReadBE32(s)) == s
  {
  }

  lemma BigEndianRoundTrip64(v: bv64, s: Bytes)
    requires |s| == 8
    ensures ReadBE64(WriteBE64(v)) == v && WriteBE64(ReadBE64(s)) == s
  {
  }

  /** On either kind of processor the bytes are the big-endian ones, and the two conversions invert each other. */
  lemma RoundTrip32(littleEndian: bool, hash: bv32, src: Bytes)
    requires |src| == 4
    ensures CanonicalFromHash32(littleEndian, hash) == WriteBE32(hash)
    ensures HashFromCanonical32(littleEndian, CanonicalFromHash32(littleEndian, hash)) == hash
    ensures CanonicalFromHash32(littleEndian, HashFromCanonical32(littleEndian, src)) == src
  {
    hide WriteLE32, WriteBE32, ReadLE32, ReadBE32, Swap32;
    SwappedBytes32(hash);
    SwappedBytes32(HashFromCanonical32(littleEndian, src));
    SwappedRead32(WriteBE32(hash));
    SwappedRead32(src);
    BigEndianRoundTrip32(hash, src);
  }

  lemma RoundTrip64(littleEndian: bool, hash: bv64, src: Bytes)
    requires |src| == 8
    ensures CanonicalFromHash64(littleEndian, hash) == WriteBE64(hash)
    ensures HashFromCanonical64(littleEndian, CanonicalFromHash64(littleEndian, hash)) == hash
    ensures CanonicalFromHash64(littleEndian, HashFromCanonical64(littleEndian, src)) == src
  {
    hide WriteLE64, WriteBE64, ReadLE64, ReadBE64, Swap64;
    SwappedBytes64(hash);
    SwappedBytes64(HashFromCanonical64(littleEndian, src));
    SwappedRead64(WriteBE64(hash));
    SwappedRead64(src);
    BigEndianRoundTrip64(hash, src);
  }

  lemma ReadsFirstEight(littleEndian: bool, s: Bytes)
    requires |s| >= 8
    ensures HashFromCanonical64(littleEndian, s) == HashFromCanonical64(littleEndian, s[..8])
  {
    hide Swap64;
    assert s[..8][..8] == s[..8];
  }

  lemma Both64(littleEndian: bool, high: bv64, low: bv64)
    ensures CanonicalFromHash128(littleEndian, Hash128(low, high))
            == CanonicalFromHash64(littleEndian, high) + CanonicalFromHash64(littleEndian, low)
  {
    hide Store64, Swap64;
  }

  /** The 128-bit form is the high word's form and then the low word's. */
  lemma RoundTrip128(littleEndian: bool, hash: Hash128, src: Bytes)
    requires |src| == 16
    ensures CanonicalFromHash128(littleEndian, hash) == WriteBE64(hash.high64) + WriteBE64(hash.low64)
    ensures HashFromCanonical128(littleEndian, CanonicalFromHash128(littleEndian, hash)) == hash
    ensures CanonicalFromHash128(littleEndian, HashFromCanonical128(littleEndian, src)) == src
  {
    hide CanonicalFromHash64, CanonicalFromHash128, HashFromCanonical64, WriteBE64;
    Both64(littleEndian, hash.high64, hash.low64);
    RoundTrip64(littleEndian, hash.high64, src[..8]);
    RoundTrip64(littleEndian, hash.low64, src[8..]);
    var bytes := CanonicalFromHash128(littleEndian, hash);
    ReadsFirstEight(littleEndian, bytes);
    assert bytes[..8] == WriteBE64(hash.high64) && bytes[8..] == WriteBE64(hash.low64);
    ReadsFirstEight(littleEndian, src);
    var h := HashFromCanonical128(littleEndian, src);
    Both64(littleEndian, h.high64, h.low64);
    RoundTrip64(littleEndian, h.high64, src[..8]);
    assert src[..8] + src[8..] == src;
  }

  // ---- The order of 128-bit hashes ----

  function Greater(x: bv64, y: bv64): int { if x > y then 1 else 0 }

  function Cmp(h1: Hash128, h2: Hash128): int {
    var hcmp := Greater(h1.high64, h2.high64) - Greater(h2.high64, h1.high64);
    if hcmp != 0 then hcmp
    else Greater(h1.low64, h2.low64) - Greater(h2.low64, h1.low64)
  }

  /** The order of two byte strings of one length: the first byte that differs decides. */
  function Lexicographic(s: Bytes, t: Bytes): int
    requires |s| == |t|
    decreases |s|
  {
    if s == [] then 0
    else if s[0] > t[0] then 1
    else if s[0] < t[0] then -1
    else Lexicographic(s[1..], t[1..])
  }

  lemma {:induction false} LexicographicConcat(s: Bytes, t: Bytes, u: Bytes, v: Bytes)
    requires |s| == |t| && |u| == |v|
    ensures Lexicographic(s + u, t + v) == if Lexicographic(s, t) != 0 then Lexicographic(s, t) else Lexicographic(u, v)
    decreases |s|
  {
    if s == [] {
      assert s + u == u && t + v == v;
    } else {
      assert (s + u)[1..] == s[1..] + u && (t + v)[1..] == t[1..] + v;
      LexicographicConcat(s[1..], t[1..], u, v);
    }
  }

  function Top(x: bv64): Byte { ((x >> 56) & 0xFF) as Byte }
  function Up(x: bv64): bv64 { x << 8 }

  /** The n highest bytes. */
  function TopBytes(x: bv64, n: nat): (s: Bytes)
    ensures |s| == n
    decreases n
  {
    if n == 0 then [] else [Top(x)] + TopBytes(Up(x), n - 1)
  }

  function UpBy(x: bv64, n: nat): bv64
    decreases n
  {
    if n == 0 then x else UpBy(Up(x), n - 1)
  }

  lemma TopDecides(x: bv64, y: bv64)
    ensures Top(x) > Top(y) ==> Greater(x, y) == 1 && Greater(y, x) == 0
  {
  }

  lemma RestWritten(x: bv64, y: bv64)
    requires x >> 56 == y >> 56
    ensures Greater(x, y) == Greater(x << 8, y << 8)
  {
  }

  lemma SameTop(x: bv64, y: bv64)
    requires Top(x) == Top(y)
    ensures x >> 56 == y >> 56
  {
  }

  lemma RestDecides(x: bv64, y: bv64)
    requires Top(x) == Top(y)
    ensures Greater(x, y) == Greater(Up(x), Up(y))
  {
    hide Top, Greater;
    SameTop(x, y);
    RestWritten(x, y);
  }

  lemma FirstByte(x: bv64, y: bv64, n: nat)
    requires n > 0
    ensures Lexicographic(TopBytes(x, n), TopBytes(y, n))
            == if Top(x) > Top(y) then 1 else if Top(x) < Top(y) then -1
               else Lexicographic(TopBytes(Up(x), n - 1), TopBytes(Up(y), n - 1))
  {
    hide Top, Up;
    assert TopBytes(x, n)[1..] == TopBytes(Up(x), n - 1) && TopBytes(y, n)[1..] == TopBytes(Up(y), n - 1);
  }

  lemma Irreflexive(x: bv64)
    ensures Greater(x, x) == 0
  {
  }

  /** Comparing the highest bytes first is comparing the words. */
  lemma {:induction false} WordOrder(x: bv64, y: bv64, n: nat)
    requires UpBy(x, n) == UpBy(y, n) == 0
    ensures Lexicographic(TopBytes(x, n), TopBytes(y, n)) == Greater(x, y) - Greater(y, x)
    decreases n
  {
    hide Top, Up, Greater;
    if n == 0 {
      Irreflexive(0);
    } else {
      FirstByte(x, y, n);
      TopDecides(x, y);
      TopDecides(y, x);
      if Top(x) == Top(y) {
        RestDecides(x, y);
        RestDecides(y, x);
        WordOrder(Up(x), Up(y), n - 1);
      }
    }
  }

  lemma UpLiterals(x: bv64)
    ensures Up(x) == x << 8 && Up(x << 8) == x << 16 && Up(x << 16) == x << 24 && Up(x << 24) == x << 32
    ensures Up(x << 32) == x << 40 && Up(x << 40) == x << 48 && Up(x << 48) == x << 56 && Up(x << 56) == 0
  {
  }

  lemma TopLiterals(x: bv64)
    ensures var s := WriteBE64(x);
            Top(x) == s[0] && Top(x << 8) == s[1] && Top(x << 16) == s[2] && Top(x << 24) == s[3]
            && Top(x << 32) == s[4] && Top(x << 40) == s[5] && Top(x << 48) == s[6] && Top(x << 56) == s[7]
  {
  }

  lemma TwoTopBytes(x: bv64, n: nat)
    ensures TopBytes(x, n + 2) == [Top(x), Top(Up(x))] + TopBytes(Up(Up(x)), n)
    ensures UpBy(x, n + 2) == UpBy(Up(Up(x)), n)
  {
    hide Top, Up;
  }

  lemma FourTopBytes(x: bv64, n: nat)
    ensures TopBytes(x, n + 4) == [Top(x), Top(Up(x)), Top(Up(Up(x))), Top(Up(Up(Up(x))))] + TopBytes(Up(Up(Up(Up(x)))), n)
    ensures UpBy(x, n + 4) == UpBy(Up(Up(Up(Up(x)))), n)
  {
    hide Top, Up, TopBytes, UpBy;
    TwoTopBytes(x, n + 2);
    TwoTopBytes(Up(Up(x)), n);
  }

  lemma EightTopBytes(x: bv64)
    ensures TopBytes(x, 8) == WriteBE64(x) && UpBy(x, 8) == 0
  {
    hide Top, Up, WriteBE64;
    UpLiterals(x);
    TopLiterals(x);
    FourTopBytes(x, 4);
    FourTopBytes(x << 32, 0);
    assert UpBy(0, 0) == 0 && TopBytes(0, 0) == [];
    hide TopBytes, UpBy;
    var s := WriteBE64(x);
    assert s == [s[0], s[1], s[2], s[3]] + [s[4], s[5], s[6], s[7]];
  }

  /** The comparison is the lexicographic order of the canonical bytes. */
  lemma CmpIsCanonicalOrder(littleEndian: bool, h1: Hash128, h2: Hash128)
    ensures |CanonicalFromHash128(littleEndian, h1)| == |CanonicalFromHash128(littleEndian, h2)| == 16
    ensures Cmp(h1, h2) == Lexicographic(CanonicalFromHash128(littleEndian, h1), CanonicalFromHash128(littleEndian, h2))
  {
    hide CanonicalFromHash128, HashFromCanonical128, WriteBE64, TopBytes, UpBy, Lexicographic, Greater;
    RoundTrip128(littleEndian, h1, seq(16, _ => 0));
    RoundTrip128(littleEndian, h2, seq(16, _ => 0));
    EightTopBytes(h1.high64);
    EightTopBytes(h1.low64);
    EightTopBytes(h2.high64);
    EightTopBytes(h2.low64);
    WordOrder(h1.high64, h2.high64, 8);
    WordOrder(h1.low64, h2.low64, 8);
    LexicographicConcat(WriteBE64(h1.high64), WriteBE64(h2.high64), WriteBE64(h1.low64), WriteBE64(h2.low64));
  }

  lemma {:induction false} LexicographicOrder(s: Bytes, t: Bytes, u: Bytes)
    requires |s| == |t| == |u|
    ensures Lexicographic(s, t) == 0 <==> s == t
    ensures Lexicographic(s, t) == -Lexicographic(t, s)
    ensures Lexicographic(s, t) <= 0 && Lexicographic(t, u) <= 0 ==> Lexicographic(s, u) <= 0
    decreases |s|
  {
    if s != [] {
      assert s == [s[0]] + s[1..] && t == [t[0]] + t[1..];
      LexicographicOrder(s[1..], t[1..], u[1..]);
    }
  }

  /** A total order: zero exactly on equal hashes, antisymmetric, transitive. */
  lemma CmpIsTotalOrder(h1: Hash128, h2: Hash128, h3: Hash128)
    ensures Cmp(h1, h2) == 0 <==> h1 == h2
    ensures Cmp(h1, h2) == -Cmp(h2, h1)
    ensures Cmp(h1, h2) <= 0 && Cmp(h2, h3) <= 0 ==> Cmp(h1, h3) <= 0
  {
    hide Cmp, CanonicalFromHash128, HashFromCanonical128, WriteBE64, Lexicographic;
    CmpIsCanonicalOrder(true, h1, h2);
    CmpIsCanonicalOrder(true, h2, h1);
    CmpIsCanonicalOrder(true, h2, h3);
    CmpIsCanonicalOrder(true, h1, h3);
    LexicographicOrder(CanonicalFromHash128(true, h1), CanonicalFromHash128(true, h2), CanonicalFromHash128(true, h3));
    RoundTrip128(true, h1, seq(16, _ => 0));
    RoundTrip128(true, h2, seq(16, _ => 0));
  }
}
