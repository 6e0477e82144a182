/** The random strategy; the generator's draw is a parameter. */
module RandomStrategy {
  import opened Backends
  import opened Books

  function HealthyOnes(backends: seq<Backend>): (r: seq<Backend>)
    reads backends
    ensures forall b :: b in r ==> b in backends && b.healthy
    ensures forall b :: b in backends && b.healthy ==> b in r
  {
    if backends == [] then []
    else
      var n := |backends| - 1;
      assert backends == backends[..n] + [backends[n]];
      HealthyOnes(backends[..n]) + if backends[n].healthy then [backends[n]] else []
  }

  lemma {:induction false} HealthyOnesAreUp(backends: seq<Backend>, up: set<Backend>)
    requires forall b :: b in backends ==> (b.healthy <==> b in up)
    ensures HealthyOnes(backends) == Up(backends, up)
  {
    if backends != [] {
      var n := |backends| - 1;
      assert backends == backends[..n] + [backends[n]];
      HealthyOnesAreUp(backends[..n], up);
    }
  }

  class Random {
    var backends: seq<Backend>

    constructor (backends: seq<Backend>)
      ensures this.backends == backends
    {
      this.backends := backends;
    }

    /** Every healthy backend can be drawn, and nothing else. */
    method Select(draw: nat) returns (r: Selection)
      ensures r.Selected? <==> exists b :: b in backends && b.healthy
      ensures r.Selected? ==>
                var d := r.decision;
                && fresh(d) && !d.fired && d.counter == null && !d.cacheHit
                && d.backend in backends && d.backend.healthy
                && HealthyOnes(backends) != []
                && d.backend == HealthyOnes(backends)[draw % |HealthyOnes(backends)|]
    {
      var healthy := [];
      for i := 0 to |backends|
        invariant healthy == HealthyOnes(backends[..i])
      {
        assert backends[..i + 1][..i] == backends[..i];
        if backends[i].healthy {
          healthy := healthy + [backends[i]];
        }
      }
      assert backends[..|backends|] == backends;
      if |healthy| == 0 {
        return NoHealthyBackend;
      }
      var backend := healthy[draw % |healthy|];
      assert backend in healthy;
      var decision := new Decision(backend, 0, 0, false, null, 0);
      return Selected(decision);
    }

    method HasHealthyBackend() returns (r: bool)
      ensures r <==> exists b :: b in backends && b.healthy
    {
      r := AnyHealthy(backends);
    }
  }
}
