/** A function applied again and again: one thread of a machine stepping alone. */
module Iteration {

  function Iterate<S>(f: S -> S, s: S, k: nat): S
  {
    if k == 0 then s else f(Iterate(f, s, k - 1))
  }

  lemma {:induction false} IterateAdd<S>(f: S -> S, s: S, k: nat, l: nat)
    ensures Iterate(f, Iterate(f, s, k), l) == Iterate(f, s, k + l)
  {
    if l > 0 {
      IterateAdd(f, s, k, l - 1);
    }
  }

  lemma IterateFirst<S>(f: S -> S, s: S, k: nat)
    ensures Iterate(f, s, k + 1) == Iterate(f, f(s), k)
  {
    assert Iterate(f, s, 1) == f(s);
    IterateAdd(f, s, 1, k);
  }
}
