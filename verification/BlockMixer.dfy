/** Hashes that fold whole blocks into a state by a step that can be undone in both of its arguments. */
module BlockMixer {

  /** A step, what undoes it for a known block, and which block leads from one state to another. */
  datatype Mixer<!S, !B> = Mixer(step: (S, B) -> S, unstep: (S, B) -> S, solve: (S, S) -> B)

  ghost predicate Lawful<S(!new), B(!new)>(m: Mixer<S, B>) {
    && (forall s, b :: m.unstep(m.step(s, b), b) == s)
    && (forall s, b :: m.step(m.unstep(s, b), b) == s)
    && (forall s, b :: m.solve(s, m.step(s, b)) == b)
    && (forall s, t :: m.step(s, m.solve(s, t)) == t)
  }

  function Fold<S, B>(m: Mixer<S, B>, s: S, blocks: seq<B>): S {
    if blocks == [] then s else Fold(m, m.step(s, blocks[0]), blocks[1..])
  }

  /** The state that the blocks lead to t from. */
  function Unfold<S, B>(m: Mixer<S, B>, t: S, blocks: seq<B>): S {
    if blocks == [] then t else m.unstep(Unfold(m, t, blocks[1..]), blocks[0])
  }

  lemma {:induction false} UnfoldUndoes<S(!new), B(!new)>(m: Mixer<S, B>, s: S, blocks: seq<B>)
    requires Lawful(m)
    ensures Unfold(m, Fold(m, s, blocks), blocks) == s
    ensures Fold(m, Unfold(m, s, blocks), blocks) == s
  {
    if blocks != [] {
      UnfoldUndoes(m, m.step(s, blocks[0]), blocks[1..]);
      UnfoldUndoes(m, s, blocks[1..]);
    }
  }

  lemma {:induction false} FoldConcat<S, B>(m: Mixer<S, B>, s: S, a: seq<B>, b: seq<B>)
    ensures Fold(m, s, a + b) == Fold(m, Fold(m, s, a), b)
  {
    if a == [] {
      assert a + b == b;
    } else {
      assert (a + b)[1..] == a[1..] + b;
      FoldConcat(m, m.step(s, a[0]), a[1..], b);
    }
  }

  /** With everything else fixed, one block reaches every state exactly once, and this is which. */
  function BlockReaching<S, B>(m: Mixer<S, B>, s: S, before: seq<B>, after: seq<B>, t: S): B {
    m.solve(Fold(m, s, before), Unfold(m, t, after))
  }

  lemma OneBlockReaches<S(!new), B(!new)>(m: Mixer<S, B>, s: S, before: seq<B>, block: B, after: seq<B>, t: S)
    requires Lawful(m)
    ensures Fold(m, s, before + [block] + after) == t <==> block == BlockReaching(m, s, before, after, t)
  {
    var p := Fold(m, s, before);
    FoldConcat(m, s, before + [block], after);
    FoldConcat(m, s, before, [block]);
    assert Fold(m, p, [block]) == m.step(p, block);
    UnfoldUndoes(m, m.step(p, block), after);
    UnfoldUndoes(m, t, after);
  }
}
