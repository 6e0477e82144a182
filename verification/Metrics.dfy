/** The router's metrics: event counters and, per backend, an exponential moving average of
    latencies, here over the real numbers. */
module Metrics {

  const ALPHA: real := 0.2

  /** The average after a non-empty history of samples: the first sample as it is, each later
      one blended in. */
  function Ema(samples: seq<real>): real
    requires samples != []
  {
    var n := |samples| - 1;
    if n == 0 then samples[0] else ALPHA * samples[n] + (1.0 - ALPHA) * Ema(samples[..n])
  }

  /** x shrunk k times by 0.8. */
  function Shrunk(k: nat, x: real): real
  {
    if k == 0 then x else (1.0 - ALPHA) * Shrunk(k - 1, x)
  }

  /** 0.8 to the power k. */
  function Decay(k: nat): (d: real)
    ensures 0.0 < d <= 1.0
  {
    if k == 0 then 1.0 else 0.8 * Decay(k - 1)
  }

  lemma {:induction false} ShrunkIsProduct(k: nat, x: real)
    ensures Shrunk(k, x) == Decay(k) * x
  {
    if k > 0 {
      ShrunkIsProduct(k - 1, x);
    }
  }

  /** What sample i among n, of value x, contributes to the average. */
  function Share(n: nat, i: nat, x: real): real
    requires i < n
  {
    if i == 0 then Shrunk(n - 1, x) else Shrunk(n - 1 - i, ALPHA * x)
  }

  /** The contributions of the first k samples. */
  function Shares(samples: seq<real>, k: nat): real
    requires k <= |samples|
  {
    if k == 0 then 0.0 else Shares(samples, k - 1) + Share(|samples|, k - 1, samples[k - 1])
  }

  lemma {:induction false} SharesShrink(samples: seq<real>, k: nat)
    requires k < |samples|
    ensures Shares(samples, k) == (1.0 - ALPHA) * Shares(samples[..|samples| - 1], k)
  {
    if k > 0 {
      SharesShrink(samples, k - 1);
    }
  }

  /** The average of n samples is the sum of their shares: 0.8^(n-1) of the first and
      0.2 * 0.8^(n-1-i) of sample i. */
  lemma {:induction false} EmaIsWeightedSum(samples: seq<real>)
    requires samples != []
    ensures Ema(samples) == Shares(samples, |samples|)
  {
    var n := |samples| - 1;
    if n > 0 {
      EmaIsWeightedSum(samples[..n]);
      SharesShrink(samples, n);
    } else {
      assert Shares(samples, 0) == 0.0;
    }
  }

  /** The weights are positive, are those products, and add up to 1 (they are the shares of a
      history of ones), so the average is a convex combination. */
  lemma {:induction false} WeightsAreConvex(n: nat, i: nat, x: real)
    requires i < n
    ensures Share(n, i, x) == (if i == 0 then Decay(n - 1) else 0.2 * Decay(n - 1 - i)) * x
    ensures Shares(seq(n, _ => 1.0), n) == 1.0
  {
    ShareIsProduct(n, i, x);
    var ones := seq(n, _ => 1.0);
    EmaIsWeightedSum(ones);
    EmaWithinRange(ones, 1.0, 1.0);
  }

  lemma ShareIsProduct(n: nat, i: nat, x: real)
    requires i < n
    ensures Share(n, i, x) == (if i == 0 then Decay(n - 1) else 0.2 * Decay(n - 1 - i)) * x
  {
    if i == 0 {
      ShrunkIsProduct(n - 1, x);
    } else {
      ShrunkIsProduct(n - 1 - i, ALPHA * x);
      Regroup(Decay(n - 1 - i), x);
    }
  }

  lemma Regroup(d: real, x: real)
    ensures d * (ALPHA * x) == (0.2 * d) * x
  {
  }

  /** The average never leaves the range of the samples. */
  lemma {:induction false} EmaWithinRange(samples: seq<real>, low: real, high: real)
    requires samples != [] && forall i :: 0 <= i < |samples| ==> low <= samples[i] <= high
    ensures low <= Ema(samples) <= high
  {
    if |samples| > 1 {
      EmaWithinRange(samples[..|samples| - 1], low, high);
    }
  }

  /** Two histories that end in the same k samples differ by exactly 0.8^k times what they
      differed by before them. */
  lemma {:induction false} EmaForgets(a: seq<real>, b: seq<real>, common: seq<real>)
    requires a != [] && b != []
    ensures Ema(a + common) - Ema(b + common) == Shrunk(|common|, Ema(a) - Ema(b))
  {
    if common == [] {
      assert a + common == a && b + common == b;
    } else {
      var n := |common| - 1;
      EmaForgets(a, b, common[..n]);
      assert (a + common)[..|a + common| - 1] == a + common[..n];
      assert (b + common)[..|b + common| - 1] == b + common[..n];
    }
  }

  // ----- Per backend ---------------------------------------------------------------------

  /** One latency sample for one backend. */
  datatype Sample = Sample(backend: string, ms: real)

  function Recorded(ema: map<string, real>, s: Sample): map<string, real>
  {
    ema[s.backend := if s.backend in ema then ALPHA * s.ms + (1.0 - ALPHA) * ema[s.backend] else s.ms]
  }

  function RecordedAll(samples: seq<Sample>): map<string, real>
  {
    if samples == [] then map[] else Recorded(RecordedAll(samples[..|samples| - 1]), samples[|samples| - 1])
  }

  function Own(samples: seq<Sample>, backend: string): seq<real>
  {
    if samples == [] then []
    else
      var s := samples[|samples| - 1];
      Own(samples[..|samples| - 1], backend) + if s.backend == backend then [s.ms] else []
  }

  /** Whatever is recorded in between for others, a backend's entry is the average of its own
      samples, in order, and exists once it has one. */
  lemma {:induction false} EntryIsOwnEma(samples: seq<Sample>, backend: string)
    ensures backend in RecordedAll(samples) <==> Own(samples, backend) != []
    ensures backend in RecordedAll(samples) ==> RecordedAll(samples)[backend] == Ema(Own(samples, backend))
  {
    if samples != [] {
      var n := |samples| - 1;
      EntryIsOwnEma(samples[..n], backend);
      var own := Own(samples[..n], backend);
      if samples[n].backend != backend {
        assert Own(samples, backend) == own;
      } else if own == [] {
        assert Own(samples, backend) == [samples[n].ms];
      } else {
        EmaSnoc(own, samples[n].ms);
      }
    }
  }

  lemma EmaSnoc(samples: seq<real>, x: real)
    requires samples != []
    ensures Ema(samples + [x]) == ALPHA * x + (1.0 - ALPHA) * Ema(samples)
  {
    assert (samples + [x])[..|samples|] == samples;
  }

  // ----- The state -----------------------------------------------------------------------

  function Count<K(==)>(counts: map<K, int>, name: K): int
  {
    if name in counts then counts[name] else 0
  }

  /** The counts with `delta` more under one name. */
  function Added<K(==)>(counts: map<K, int>, name: K, delta: int): map<K, int>
  {
    counts[name := Count(counts, name) + delta]
  }

  /** One more under `name`, which is present from then on, and nothing else changed. */
  ghost predicate Incremented<K(!new)>(before: map<K, int>, after: map<K, int>, name: K)
  {
    && after.Keys == before.Keys + {name}
    && forall k :: Count(after, k) == Count(before, k) + if k == name then 1 else 0
  }

  class State {
    var inFlight: int
    var requestsTotal: int
    var backendErrors: int
    var kvCacheHits: int
    var kvCacheMisses: int
    var strategyCounts: map<string, int>
    var backendCounts: map<string, int>
    var latencyEma: map<string, real>

    constructor ()
      ensures latencyEma == map[] && strategyCounts == map[] && backendCounts == map[]
      ensures inFlight == requestsTotal == backendErrors == kvCacheHits == kvCacheMisses == 0
    {
      inFlight, requestsTotal, backendErrors, kvCacheHits, kvCacheMisses := 0, 0, 0, 0, 0;
      strategyCounts, backendCounts, latencyEma := map[], map[], map[];
    }

    method RecordLatency(backend: string, ms: real)
      modifies this`latencyEma
      ensures latencyEma == Recorded(old(latencyEma), Sample(backend, ms))
    {
      if backend in latencyEma {
        latencyEma := latencyEma[backend := ALPHA * ms + (1.0 - ALPHA) * latencyEma[backend]];
      } else {
        latencyEma := latencyEma[backend := ms];
      }
    }

    method RecordStrategy(name: string)
      modifies this`strategyCounts
      ensures Incremented(old(strategyCounts), strategyCounts, name)
    {
      strategyCounts := Added(strategyCounts, name, 1);
    }

    method RecordBackend(name: string)
      modifies this`backendCounts
      ensures Incremented(old(backendCounts), backendCounts, name)
    {
      backendCounts := Added(backendCounts, name, 1);
    }
  }
}
