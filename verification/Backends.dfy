/** Backends, the counters that selectors keep for them, and decisions with their once-only
    release. */
module Backends {
  import opened GoText

  type TrimmedString = s: string | Trimmed(s) witness ""

  class Backend {
    const name: TrimmedString
    var healthy: bool

    constructor (raw: string)
      ensures name == TrimSpace(raw) && healthy
    {
      name := TrimSpace(raw);
      healthy := true;
    }

    method SetHealthy(up: bool)
      modifies this
      ensures healthy == up
    {
      healthy := up;
    }
  }

  ghost function HealthySet(backends: seq<Backend>): set<Backend>
    reads backends
  {
    set b | b in backends && b.healthy
  }

  /** The loop of every HasHealthyBackend. */
  method AnyHealthy(backends: seq<Backend>) returns (r: bool)
    ensures r <==> exists b :: b in backends && b.healthy
  {
    for i := 0 to |backends|
      invariant forall j :: 0 <= j < i ==> !backends[j].healthy
    {
      if backends[i].healthy {
        return true;
      }
    }
    return false;
  }

  /** An atomic 64-bit counter. */
  class Counter {
    var value: int

    constructor ()
      ensures value == 0
    {
      value := 0;
    }

    method Add(delta: int) returns (after: int)
      modifies this
      ensures after == value == old(value) + delta
    {
      value := value + delta;
      after := value;
    }
  }

  /** A selection; its release closure is the counter to subtract from and the amount, or none. */
  class Decision {
    const backend: Backend
    const pendingRequests: int
    const pendingCost: int
    const cacheHit: bool
    const counter: Counter?
    const amount: int
    var fired: bool

    constructor (backend: Backend, pendingRequests: int, pendingCost: int, cacheHit: bool,
                 counter: Counter?, amount: int)
      ensures this.backend == backend && this.pendingRequests == pendingRequests && this.pendingCost == pendingCost
      ensures this.cacheHit == cacheHit && this.counter == counter && this.amount == amount && !fired
    {
      this.backend := backend;
      this.pendingRequests := pendingRequests;
      this.pendingCost := pendingCost;
      this.cacheHit := cacheHit;
      this.counter := counter;
      this.amount := amount;
      fired := false;
    }

    /** The first call gives the amount back, every later one does nothing. */
    method Release()
      modifies this, counter
      ensures fired
      ensures counter != null ==> counter.value == old(counter.value) - if old(fired) then 0 else amount
    {
      if !fired {
        fired := true;
        if counter != null {
          var _ := counter.Add(-amount);
        }
      }
    }
  }

  datatype Selection = NoHealthyBackend | Selected(decision: Decision)
}
