/** Streaming as the header documents it: reset, any number of updates, digest. */
module Streaming {
  import opened Words
  import opened Xxh3Stripes
  import opened Xxh3OneShot
  import opened Wrappers
  import opened Xxh3State
  import Xxh3Kernels
  import Xxh3Short128
  import Xxh3Short64
  import Products
  import Xxh32
  import Xxh64

  /** The bytes of all the pieces, in order. */
  function Flatten(pieces: seq<Bytes>): Bytes {
    if pieces == [] then [] else Flatten(pieces[..|pieces| - 1]) + pieces[|pieces| - 1]
  }

  lemma NextPiece(pieces: seq<Bytes>, i: nat)
    requires i < |pieces|
    ensures Flatten(pieces[..i + 1]) == Flatten(pieces[..i]) + pieces[i]
  {
    assert pieces[..i + 1][..i] == pieces[..i];
  }

  lemma NoPieces(pieces: seq<Bytes>)
    ensures Flatten(pieces[..0]) == [] && pieces[..|pieces|] == pieces
  {
  }

  /** XXH32 of any number of pieces of any size, the total past 2^32 included. */
  method Xxh32Pieces(seed: bv32, pieces: seq<Bytes>) returns (h: bv32)
    ensures h == Xxh32.Hash(Flatten(pieces), seed)
  {
    hide Flatten, Xxh32.Hash, Xxh32.Holds;
    NoPieces(pieces);
    var state := new Xxh32.State(seed);
    for i := 0 to |pieces|
      invariant state.Valid() && state.seed == seed && state.stream == Flatten(pieces[..i])
      invariant fresh(state) && fresh(state.acc) && fresh(state.buffer)
    {
      NextPiece(pieces, i);
      state.Update(pieces[i]);
    }
    h := state.Digest();
  }

  /** XXH64 of any number of pieces. */
  method Xxh64Pieces(seed: bv64, pieces: seq<Bytes>) returns (h: bv64)
    requires |Flatten(pieces)| < TWO_64
    ensures h == Xxh64.Hash(Flatten(pieces), seed)
  {
    hide Flatten, Xxh64.Hash, Xxh64.Holds;
    NoPieces(pieces);
    var state := new Xxh64.State(seed);
    for i := 0 to |pieces|
      invariant state.Valid() && state.seed == seed && state.stream == Flatten(pieces[..i])
      invariant fresh(state) && fresh(state.acc) && fresh(state.buffer)
    {
      NextPiece(pieces, i);
      state.Update(pieces[i]);
    }
    h := state.Digest();
  }

  predicate IsSizeT(s: Option<Bytes>) {
    s.Some? ==> |s.value| < TWO_64
  }

  /** Whatever the reset, the width, the kernels and the cutting of the input, empty pieces included,
      the digest is the one-shot hash of the whole; a rejected reset has no digest. */
  method HashPieces<T>(w: Width<T>, k: Kernel, r: Reset, pieces: seq<Bytes>) returns (h: Option<T>)
    requires |Flatten(pieces)| < TWO_64
    requires r.ResetWithSecret? || r.ResetWithSecretAndSeed? ==> IsSizeT(r.secret)
    ensures h == if ModeOf(r).None? then None else Some(Hash(w, k, ModeOf(r).value, Flatten(pieces)))
  {
    hide Flatten, Hash, Holds, ModeOf, State.Ready, State.KeyingNow, Keyed;
    NoPieces(pieces);
    var state := new State(k);
    var status := ApplyReset(state, r);
    if status == Error { return None; }
    for i := 0 to |pieces|
      invariant state.Ready() && state.kernel == k && state.mode == ModeOf(r)
      invariant state.stream == Flatten(pieces[..i])
      invariant fresh(state) && fresh(state.acc) && fresh(state.buffer) && fresh(state.customSecret)
    {
      NextPiece(pieces, i);
      state.Update(pieces[i]);
    }
    var digest := state.Digest(w);
    h := Some(digest);
  }

  /** The two widths that the header offers, on the kernels that the scalar and the SSE2 build both compute. */
  method Xxh3Pieces(r: Reset, pieces: seq<Bytes>) returns (h64: Option<bv64>, h128: Option<Products.Hash128>)
    requires |Flatten(pieces)| < TWO_64
    requires r.ResetWithSecret? || r.ResetWithSecretAndSeed? ==> IsSizeT(r.secret)
    ensures h64 == if ModeOf(r).None? then None
                   else Some(Hash(Xxh3Short64.Width64(), Xxh3Kernels.LaneKernel(), ModeOf(r).value, Flatten(pieces)))
    ensures h128 == if ModeOf(r).None? then None
                    else Some(Hash(Xxh3Short128.Width128(), Xxh3Kernels.LaneKernel(), ModeOf(r).value, Flatten(pieces)))
  {
    hide Hash, Xxh3Short64.Short, Xxh3Short128.Short;
    h64 := HashPieces(Xxh3Short64.Width64(), Xxh3Kernels.LaneKernel(), r, pieces);
    h128 := HashPieces(Xxh3Short128.Width128(), Xxh3Kernels.LaneKernel(), r, pieces);
  }

  /** A digest in the middle changes nothing: the state goes on to hash the longer stream. */
  method HashTwice<T>(w: Width<T>, k: Kernel, r: Reset, first: Bytes, second: Bytes) returns (h1: T, h2: T)
    requires ModeOf(r).Some? && |first + second| < TWO_64
    requires r.ResetWithSecret? || r.ResetWithSecretAndSeed? ==> IsSizeT(r.secret)
    ensures h1 == Hash(w, k, ModeOf(r).value, first)
    ensures h2 == Hash(w, k, ModeOf(r).value, first + second)
  {
    hide Hash, Holds, State.Ready, State.KeyingNow, Keyed;
    var state := new State(k);
    var _ := ApplyReset(state, r);
    state.Update(first);
    assert [] + first == first;
    h1 := state.Digest(w);
    state.Update(second);
    h2 := state.Digest(w);
  }

  method ApplyReset(state: State, r: Reset) returns (status: Status)
    requires state.Valid()
    requires r.ResetWithSecret? || r.ResetWithSecretAndSeed? ==> IsSizeT(r.secret)
    modifies state, state.acc, state.customSecret
    ensures status == if ModeOf(r).None? then Error else Ok
    ensures state.KeyingNow() == Keyed(old(state.KeyingNow()), r)
    ensures status == Ok ==> state.Ready() && state.mode == ModeOf(r) && state.stream == []
  {
    match r {
      case ResetDefault => status := state.ResetDefault();
      case ResetWithSecret(s) => status := state.ResetWithSecret(s, if s.Some? then |s.value| else 0);
      case ResetWithSeed(seed) => status := state.ResetWithSeed(seed);
      case ResetWithSecretAndSeed(s, seed) =>
        status := state.ResetWithSecretAndSeed(s, if s.Some? then |s.value| else 0, seed);
    }
  }
}
