/** The round_robin strategy. */
module RoundRobinStrategy {
  import opened Sums
  import opened Ring
  import opened Books
  import opened Backends
  import opened LoadTracking

  class RoundRobin {
    var backends: seq<Backend>
    var next: nat

    constructor (backends: seq<Backend>)
      ensures this.backends == backends && next == 0
    {
      this.backends := backends;
      next := 0;
    }

    method SetBackends(backends: seq<Backend>)
      modifies this
      ensures this.backends == backends && next == old(next)
    {
      this.backends := backends;
    }

    /** The ticketed scan stops at the first healthy backend; an empty list costs no ticket. */
    method Pick() returns (r: Option<Backend>)
      requires next < TICKET_LIMIT
      modifies this`next
      ensures (next, r) == RoundRobinPick(backends, HealthySet(backends), old(next))
      ensures r.Some? <==> exists b :: b in backends && b.healthy
      ensures r.Some? ==> r.value in backends && r.value.healthy
    {
      var n := |backends|;
      if n == 0 {
        return None;
      }
      ghost var ticket := next;
      var start := StartOf(next, n);
      next := next + 1;
      ghost var health := Health(backends, HealthySet(backends));
      ghost var seen := Ordered(health, start);
      FirstTrueCorrect(seen);
      for i := 0 to n
        invariant forall j :: 0 <= j < i ==> !seen[j]
      {
        var backend := backends[(start + i) % n];
        assert seen[i] == (backend in HealthySet(backends)) && backend == backends[At(start, i, n)];
        if backend.healthy {
          assert IsFirstTrue(seen, i);
          return Some(backend);
        }
      }
      assert FirstTrue(seen).None?;
      forall b | b in backends ensures !b.healthy {
        var k :| 0 <= k < n && backends[k] == b;
        assert !seen[OffsetOf(start, k, n)];
      }
      return None;
    }

    method Select() returns (r: Selection)
      requires next < TICKET_LIMIT
      modifies this`next
      ensures var (ticket, b) := RoundRobinPick(backends, HealthySet(backends), old(next));
              && next == ticket
              && (r.Selected? <==> b.Some?)
              && (r.Selected? ==>
                    var d := r.decision;
                    fresh(d) && !d.fired && d.backend == b.value && d.counter == null && !d.cacheHit)
      ensures r.Selected? <==> exists b :: b in backends && b.healthy
      ensures r.Selected? ==> r.decision.backend in backends && r.decision.backend.healthy
    {
      var backend := Pick();
      if backend.None? {
        return NoHealthyBackend;
      }
      var decision := new Decision(backend.value, 0, 0, false, null, 0);
      return Selected(decision);
    }

    method HasHealthyBackend() returns (r: bool)
      ensures r <==> exists b :: b in backends && b.healthy
    {
      r := AnyHealthy(backends);
    }
  }
}
