/** What is left of an input once all its whole stripes of w bytes have been taken from the front. */
module Leftover {
  import opened Words

  function Rest(w: nat, data: Bytes): (r: Bytes)
    requires w > 0
    ensures |r| < w && |r| <= |data|
    decreases |data|
  {
    if |data| < w then data else Rest(w, data[w..])
  }

  /** More input meets only the rest of what came before. */
  lemma {:induction false} RestConcat(w: nat, a: Bytes, b: Bytes)
    requires w > 0
    ensures Rest(w, a + b) == Rest(w, Rest(w, a) + b)
    decreases |a|
  {
    if |a| >= w {
      assert (a + b)[w..] == a[w..] + b;
      RestConcat(w, a[w..], b);
    }
  }

  lemma {:induction false} RestLength(w: nat, data: Bytes)
    requires w > 0
    ensures |Rest(w, data)| == |data| % w
    ensures Rest(w, data) == data[|data| - |data| % w..]
    decreases |data|
  {
    if |data| >= w {
      RestLength(w, data[w..]);
      ModSkips(|data| - w, w);
    }
  }

  lemma ModSkips(n: nat, w: nat)
    requires w > 0
    ensures (n + w) % w == n % w <= n
  {
    var q := n / w;
    assert n + w == (q + 1) * w + n % w;
    ModUnique(n + w, q + 1, n % w, w);
  }

  lemma ModUnique(n: nat, q: nat, r: nat, w: nat)
    requires w > 0 && r < w && n == q * w + r
    ensures n % w == r
  {
    var q' := n / w;
    if q' > q {
      Monotone(q + 1, q', w);
    } else if q' < q {
      Monotone(q' + 1, q, w);
    }
  }

  lemma Monotone(a: nat, b: nat, w: nat)
    requires a <= b
    ensures a * w <= b * w
  {
  }
}
