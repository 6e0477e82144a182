/** Options, and totals of an integer weight over a sequence: the bookkeeping that every
    accounting argument of this project rests on. */
module Sums {

  datatype Option<+T> = None | Some(value: T)

  function Sum<T>(ts: seq<T>, f: T -> int): int
  {
    if ts == [] then 0 else Sum(ts[..|ts| - 1], f) + f(ts[|ts| - 1])
  }

  lemma SumAppend<T>(ts: seq<T>, t: T, f: T -> int)
    ensures Sum(ts + [t], f) == Sum(ts, f) + f(t)
  {
    assert (ts + [t])[..|ts|] == ts;
  }

  /** Replacing one element moves the total by the difference of the two weights. */
  lemma {:induction false} SumUpdate<T>(ts: seq<T>, i: nat, t: T, f: T -> int)
    requires i < |ts|
    ensures Sum(ts[i := t], f) == Sum(ts, f) - f(ts[i]) + f(t)
  {
    var n := |ts| - 1;
    if i == n {
      assert ts[i := t][..n] == ts[..n];
    } else {
      assert ts[i := t][..n] == ts[..n][i := t];
      SumUpdate(ts[..n], i, t, f);
    }
  }

  lemma {:induction false} SumAgree<T>(ts: seq<T>, f: T -> int, g: T -> int)
    requires forall t :: t in ts ==> f(t) == g(t)
    ensures Sum(ts, f) == Sum(ts, g)
  {
    if ts != [] {
      SumAgree(ts[..|ts| - 1], f, g);
    }
  }

  lemma {:induction false} SumLe<T>(ts: seq<T>, f: T -> int, g: T -> int)
    requires forall t :: t in ts ==> f(t) <= g(t)
    ensures Sum(ts, f) <= Sum(ts, g)
  {
    if ts != [] {
      SumLe(ts[..|ts| - 1], f, g);
    }
  }

  lemma {:induction false} SumNonNegative<T>(ts: seq<T>, f: T -> int)
    requires forall t :: t in ts ==> 0 <= f(t)
    ensures 0 <= Sum(ts, f)
  {
    if ts != [] {
      SumNonNegative(ts[..|ts| - 1], f);
    }
  }

  /** A total of non-negative weights is zero exactly when every weight is. */
  lemma {:induction false} SumZeroIff<T>(ts: seq<T>, f: T -> int)
    requires forall t :: t in ts ==> 0 <= f(t)
    ensures Sum(ts, f) == 0 <==> forall t :: t in ts ==> f(t) == 0
  {
    if ts != [] {
      var n := |ts| - 1;
      SumZeroIff(ts[..n], f);
      SumNonNegative(ts[..n], f);
      assert ts == ts[..n] + [ts[n]];
    }
  }

  lemma {:induction false} SumPlus<T>(ts: seq<T>, f: T -> int, g: T -> int, h: T -> int)
    requires forall t :: t in ts ==> h(t) == f(t) + g(t)
    ensures Sum(ts, h) == Sum(ts, f) + Sum(ts, g)
  {
    if ts != [] {
      SumPlus(ts[..|ts| - 1], f, g, h);
    }
  }

  /** Two weights that differ only on x, which occurs exactly once, have totals that differ
      by what they differ on x. */
  lemma {:induction false} SumShift<T>(ts: seq<T>, x: T, f: T -> int, g: T -> int)
    requires forall i, j :: 0 <= i < j < |ts| ==> ts[i] != ts[j]
    requires x in ts
    requires forall t :: t in ts && t != x ==> f(t) == g(t)
    ensures Sum(ts, g) == Sum(ts, f) - f(x) + g(x)
  {
    var n := |ts| - 1;
    assert ts == ts[..n] + [ts[n]];
    if ts[n] == x {
      SumAgree(ts[..n], f, g);
    } else {
      SumShift(ts[..n], x, f, g);
    }
  }
}
