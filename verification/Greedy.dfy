/** cost_aware as a list scheduler: Selects one after another, without release, on healthy
    backends that stay healthy, are within Graham's bound of every other assignment. */
module Greedy {
  import opened Sums
  import opened Books

  /** The books after undisturbed cost_aware Selects with the given estimates, none released. */
  function Assign<B, C>(a: Book<B, C>, healthy: set<B>, estimates: seq<int>): Book<B, C>
  {
    if estimates == [] then a
    else Select(Assign(a, healthy, estimates[..|estimates| - 1]), healthy,
                EffectiveCost(estimates[|estimates| - 1])).0
  }

  function HealthyLoad<B, C>(a: Book<B, C>, healthy: set<B>): B -> int
  {
    (b: B) => if b in healthy then LoadOn(a, b) else 0
  }

  function HealthyOne<B>(healthy: set<B>): B -> int
  {
    (b: B) => if b in healthy then 1 else 0
  }

  function CostOf(): int -> int
  {
    (e: int) => EffectiveCost(e)
  }

  /** A new instance's books: distinct backends, every counter at zero. */
  ghost predicate Zeroed<B, C>(a: Book<B, C>)
  {
    WellFormed(a) && Distinct(a.backends) && forall b :: b in a.loads ==> a.values[a.loads[b]] == 0
  }

  /** No healthy load exceeds another by more than the largest cost, and the healthy loads add
      up to everything assigned. */
  ghost predicate Level<B, C>(a: Book<B, C>, healthy: set<B>, maxCost: nat, total: int)
  {
    && WellFormed(a) && Distinct(a.backends)
    && (forall b, d :: b in a.backends && b in healthy && d in a.backends && d in healthy ==>
          LoadOn(a, b) <= LoadOn(a, d) + maxCost)
    && Sum(a.backends, HealthyLoad(a, healthy)) == total
  }

  lemma SelectKeepsLevel<B, C>(a: Book<B, C>, healthy: set<B>, cost: nat, maxCost: nat, total: int)
    requires Level(a, healthy, maxCost, total) && cost <= maxCost
    requires exists b :: b in a.backends && b in healthy
    ensures Level(Select(a, healthy, cost).0, healthy, maxCost, total + cost)
  {
    SelectServesLeastLoaded(a, healthy, cost);
    var (r, g) := Select(a, healthy, cost);
    forall d | d in a.backends ensures LoadOn(r, d) == LoadOn(a, d) + if d == g.backend then cost else 0 {
    }
    SumShift(a.backends, g.backend, HealthyLoad(a, healthy), HealthyLoad(r, healthy));
  }

  lemma {:induction false} AssignKeepsLevel<B, C>(a: Book<B, C>, healthy: set<B>, estimates: seq<int>, maxCost: nat)
    requires Zeroed(a) && exists b :: b in a.backends && b in healthy
    requires forall e :: e in estimates ==> EffectiveCost(e) <= maxCost
    ensures Assign(a, healthy, estimates).backends == a.backends
    ensures Level(Assign(a, healthy, estimates), healthy, maxCost, Sum(estimates, CostOf()))
  {
    if estimates == [] {
      forall b | b in a.backends ensures HealthyLoad(a, healthy)(b) == 0 {
      }
      SumZeroIff(a.backends, HealthyLoad(a, healthy));
    } else {
      var n := |estimates| - 1;
      assert forall e :: e in estimates[..n] ==> e in estimates;
      AssignKeepsLevel(a, healthy, estimates[..n], maxCost);
      assert estimates[n] in estimates;
      SelectKeepsLevel(Assign(a, healthy, estimates[..n]), healthy, EffectiveCost(estimates[n]),
                       maxCost, Sum(estimates[..n], CostOf()));
      SelectServesLeastLoaded(Assign(a, healthy, estimates[..n]), healthy, EffectiveCost(estimates[n]));
    }
  }

  /** A value within maxCost of every healthy load (and equal to one of them) is within its
      share of their sum. */
  lemma {:induction false} BelowAverage<B>(bs: seq<B>, b: B, healthy: set<B>, load: B -> int, maxCost: nat)
    requires Distinct(bs) && b in healthy
    requires forall d :: d in bs && d in healthy ==> load(b) <= load(d) + maxCost
    requires forall d :: d in bs && d !in healthy ==> load(d) == 0
    ensures var h := Sum(bs, HealthyOne(healthy));
            h * load(b) <= Sum(bs, load) + h * maxCost - if b in bs then maxCost else 0
  {
    if bs != [] {
      var n := |bs| - 1;
      assert bs == bs[..n] + [bs[n]];
      BelowAverage(bs[..n], b, healthy, load, maxCost);
      OneMoreHealthy(Sum(bs[..n], HealthyOne(healthy)), HealthyOne(healthy)(bs[n]), load(b), maxCost);
    }
  }

  lemma OneMoreHealthy(h: int, one: int, load: int, maxCost: int)
    requires one == 0 || one == 1
    ensures (h + one) * load == h * load + (if one == 1 then load else 0)
    ensures (h + one) * maxCost == h * maxCost + (if one == 1 then maxCost else 0)
  {
  }

  lemma FewerTimes(h: int, c: int)
    ensures (h - 1) * c == h * c - c
    ensures (2 * h - 1) * c == h * c + h * c - c
  {
  }

  /** h healthy backends: h times the largest load is at most the total cost plus h-1 times the
      largest cost. */
  lemma GrahamBound<B, C>(a: Book<B, C>, healthy: set<B>, estimates: seq<int>, maxCost: nat, b: B)
    requires Zeroed(a) && b in a.backends && b in healthy
    requires forall e :: e in estimates ==> EffectiveCost(e) <= maxCost
    ensures var h := Sum(a.backends, HealthyOne(healthy));
            h * LoadOn(Assign(a, healthy, estimates), b) <= Sum(estimates, CostOf()) + (h - 1) * maxCost
  {
    AssignKeepsLevel(a, healthy, estimates, maxCost);
    var r := Assign(a, healthy, estimates);
    var h := Sum(a.backends, HealthyOne(healthy));
    BelowAverage(r.backends, b, healthy, HealthyLoad(r, healthy), maxCost);
    assert b in r.backends && HealthyLoad(r, healthy)(b) == LoadOn(r, b);
    FewerTimes(h, maxCost);
  }

  // ----- Against any other assignment ----------------------------------------------------

  /** The load that an assignment (the i-th request to target[i]) puts on d. */
  function Placed<B(==)>(estimates: seq<int>, target: seq<B>, d: B): int
    requires |target| == |estimates|
  {
    if estimates == [] then 0
    else
      var n := |estimates| - 1;
      Placed(estimates[..n], target[..n], d) + if target[n] == d then EffectiveCost(estimates[n]) else 0
  }

  function PlacedHealthy<B(==)>(estimates: seq<int>, target: seq<B>, healthy: set<B>): B -> int
    requires |target| == |estimates|
  {
    (d: B) => if d in healthy then Placed(estimates, target, d) else 0
  }

  ghost predicate Legal<B>(backends: seq<B>, healthy: set<B>, target: seq<B>)
  {
    forall d :: d in target ==> d in backends && d in healthy
  }

  lemma {:induction false} PlacedTotal<B>(backends: seq<B>, healthy: set<B>, estimates: seq<int>, target: seq<B>)
    requires Distinct(backends) && |target| == |estimates| && Legal(backends, healthy, target)
    ensures Sum(backends, PlacedHealthy(estimates, target, healthy)) == Sum(estimates, CostOf())
  {
    if estimates == [] {
      forall d | d in backends ensures PlacedHealthy(estimates, target, healthy)(d) == 0 {
      }
      SumZeroIff(backends, PlacedHealthy(estimates, target, healthy));
    } else {
      var n := |estimates| - 1;
      assert target[n] in target;
      assert forall d :: d in target[..n] ==> d in target;
      PlacedTotal(backends, healthy, estimates[..n], target[..n]);
      SumShift(backends, target[n], PlacedHealthy(estimates[..n], target[..n], healthy),
               PlacedHealthy(estimates, target, healthy));
    }
  }

  lemma {:induction false} PlacedCoversEach<B>(estimates: seq<int>, target: seq<B>, i: nat)
    requires |target| == |estimates| && i < |estimates|
    ensures EffectiveCost(estimates[i]) <= Placed(estimates, target, target[i])
  {
    var n := |estimates| - 1;
    PlacedNonNegative(estimates[..n], target[..n], target[i]);
    if i < n {
      PlacedCoversEach(estimates[..n], target[..n], i);
    }
  }

  lemma {:induction false} PlacedNonNegative<B>(estimates: seq<int>, target: seq<B>, d: B)
    requires |target| == |estimates|
    ensures 0 <= Placed(estimates, target, d)
  {
    if estimates != [] {
      PlacedNonNegative(estimates[..|estimates| - 1], target[..|estimates| - 1], d);
    }
  }

  /** A common bound on the loads of an assignment is at least the average. */
  lemma {:induction false} AverageBelow<B>(bs: seq<B>, healthy: set<B>, load: B -> int, bound: nat)
    requires forall d :: d in bs ==> load(d) <= if d in healthy then bound else 0
    ensures Sum(bs, load) <= Sum(bs, HealthyOne(healthy)) * bound
  {
    if bs != [] {
      var n := |bs| - 1;
      AverageBelow(bs[..n], healthy, load, bound);
      assert bs[n] in bs;
      var h := Sum(bs[..n], HealthyOne(healthy));
      assert (h + 1) * bound == h * bound + bound;
    }
  }

  /** An assignment whose loads stay within `bound` needs a bound no smaller than any single
      cost, and h times it is no smaller than the total. */
  lemma BoundCovers<B>(backends: seq<B>, healthy: set<B>, estimates: seq<int>, target: seq<B>, bound: nat)
    requires Distinct(backends)
    requires |target| == |estimates| && Legal(backends, healthy, target)
    requires forall d :: d in backends && d in healthy ==> Placed(estimates, target, d) <= bound
    ensures forall e :: e in estimates ==> EffectiveCost(e) <= bound
    ensures Sum(estimates, CostOf()) <= Sum(backends, HealthyOne(healthy)) * bound
  {
    forall e | e in estimates ensures EffectiveCost(e) <= bound {
      var i :| 0 <= i < |estimates| && estimates[i] == e;
      assert target[i] in target;
      PlacedCoversEach(estimates, target, i);
    }
    PlacedTotal(backends, healthy, estimates, target);
    AverageBelow(backends, healthy, PlacedHealthy(estimates, target, healthy), bound);
  }

  lemma Chain(h: int, load: int, total: int, bound: nat)
    requires h * load <= total + (h - 1) * bound && total <= h * bound
    ensures h * load <= (2 * h - 1) * bound
  {
    FewerTimes(h, bound);
  }

  lemma GrahamWithin<B, C>(a: Book<B, C>, healthy: set<B>, estimates: seq<int>, bound: nat, b: B)
    requires Zeroed(a) && b in a.backends && b in healthy
    requires forall e :: e in estimates ==> EffectiveCost(e) <= bound
    requires Sum(estimates, CostOf()) <= Sum(a.backends, HealthyOne(healthy)) * bound
    ensures var h := Sum(a.backends, HealthyOne(healthy));
            h * LoadOn(Assign(a, healthy, estimates), b) <= (2 * h - 1) * bound
  {
    GrahamBound(a, healthy, estimates, bound, b);
    Chain(Sum(a.backends, HealthyOne(healthy)), LoadOn(Assign(a, healthy, estimates), b),
          Sum(estimates, CostOf()), bound);
  }

  /** Whatever assignment of the same requests to the healthy backends keeps every load within
      `bound`, the greedy loads are within (2 - 1/h) * bound. */
  lemma GreedyWithinTwiceOptimal<B, C>(a: Book<B, C>, healthy: set<B>, estimates: seq<int>,
                                       target: seq<B>, bound: nat, b: B)
    requires Zeroed(a) && b in a.backends && b in healthy
    requires |target| == |estimates| && Legal(a.backends, healthy, target)
    requires forall d :: d in a.backends && d in healthy ==> Placed(estimates, target, d) <= bound
    ensures var h := Sum(a.backends, HealthyOne(healthy));
            h * LoadOn(Assign(a, healthy, estimates), b) <= (2 * h - 1) * bound
  {
    BoundCovers(a.backends, healthy, estimates, target, bound);
    GrahamWithin(a, healthy, estimates, bound, b);
  }
}
