/** The request lifecycle, one request at a time: selection by the active strategy, metrics, the
    backend call, health, affinity and release; with strategy switching and probing between
    requests. What the backend answers, the clock and the random draw are parameters. */
module Server {
  import opened Sums
  import opened GoText
  import opened Backends
  import opened Cache
  import opened Strategies
  import opened AffinityHistory
  import opened CacheKeys
  import Books
  import ChatRequest
  import Metrics
  import KVAwareStrategy
  import LeastPendingStrategy
  import RandomStrategy
  import RoundRobinStrategy

  /** The outcome of the call to the chosen backend, its duration in milliseconds, and the time
      at which an answer is recorded. */
  datatype Reply = Reply(ok: bool, latency: real, at: int)

  datatype Status = OK | BadRequest | ServiceUnavailable | BadGateway

  // ----- Strategy names ------------------------------------------------------------------

  /** Lower case, as far as it can produce an ASCII letter. */
  function LowerChar(c: char): char
  {
    if 'A' <= c <= 'Z' then c - 'A' + 'a'
    else if c == '\U{130}' then 'i'
    else if c == '\U{212A}' then 'k'
    else c
  }

  function Normalized(raw: string): (r: string)
    ensures |r| == |TrimSpace(raw)|
  {
    var s := TrimSpace(raw);
    seq(|s|, i requires 0 <= i < |s| => if LowerChar(s[i]) == '-' then '_' else LowerChar(s[i]))
  }

  function NormalizeStrategyName(raw: string): Option<string>
  {
    var name := Normalized(raw);
    if name == "round_robin" || name == "least_pending" || name == "random" || name == "kv_aware"
    then Some(name) else None
  }

  /** c spells x, a lower-case ASCII letter or an underscore, up to case and a hyphen for the
      underscore. Two letters beyond ASCII have an ASCII lower case. */
  predicate Spells(c: char, x: char)
  {
    || c == x
    || ('a' <= x <= 'z' && 'A' <= c <= 'Z' && c - 'A' == x - 'a')
    || (x == '_' && c == '-') || (x == 'i' && c == '\U{130}') || (x == 'k' && c == '\U{212A}')
  }

  predicate IsRuntimeName(n: string)
  {
    n in ["round_robin", "least_pending", "random", "kv_aware"]
  }

  lemma SpellsIff(c: char, x: char)
    requires 'a' <= x <= 'z' || x == '_'
    ensures Spells(c, x) <==> x == if LowerChar(c) == '-' then '_' else LowerChar(c)
  {
  }

  lemma PlainName(n: string, i: nat)
    requires IsRuntimeName(n) && i < |n|
    ensures 'a' <= n[i] <= 'z' || n[i] == '_'
  {
  }

  /** A switch accepts exactly the four runtime names, each in any spelling up to surrounding white
      space, case, and hyphens for underscores; so the names themselves are accepted as they are,
      and cost_aware is not. */
  lemma NormalizeIff(raw: string, n: string)
    ensures NormalizeStrategyName(raw) == Some(n) <==>
            IsRuntimeName(n) && |TrimSpace(raw)| == |n| && forall i :: 0 <= i < |n| ==> Spells(TrimSpace(raw)[i], n[i])
  {
    var s := TrimSpace(raw);
    if IsRuntimeName(n) && |s| == |n| {
      forall i | 0 <= i < |n| ensures Spells(s[i], n[i]) <==> n[i] == Normalized(raw)[i] {
        PlainName(n, i);
        SpellsIff(s[i], n[i]);
      }
    }
  }

  lemma RuntimeNameIsItsOwn(n: string)
    requires IsRuntimeName(n)
    ensures NormalizeStrategyName(n) == Some(n)
  {
    PlainName(n, 0);
    PlainName(n, |n| - 1);
    TrimmedIsFixed(n);
    NormalizeIff(n, n);
  }

  /** The strategy that each name stands for. */
  predicate Installs(name: string, s: Strategy)
  {
    && (name == "round_robin" ==> s.RoundRobin?) && (name == "least_pending" ==> s.LeastPending?)
    && (name == "random" ==> s.Random?) && (name == "kv_aware" ==> s.KVAware?)
  }

  // ----- The server ----------------------------------------------------------------------

  class Server {
    const backends: seq<Backend>
    const cacheTtl: int
    const cacheStore: MemoryStore
    const metrics: Metrics.State
    /** SHA-256 of a payload, truncated and in hexadecimal. */
    const digest: string -> string
    var strategy: Strategy
    /** The counters of the active instance, and its footprint. */
    ghost var counters: set<Counter>
    ghost var parts: set<object>
    /** Every request that was answered, in order. */
    ghost var successes: seq<Success>

    ghost predicate Valid()
      reads this`strategy, this`counters, this`parts, parts, cacheStore
    {
      && cacheStore.Valid()
      && strategy.Root() in parts && counters <= parts && counters == strategy.Known()
      && this !in parts && metrics !in parts && cacheStore !in parts
      && (forall b :: b in backends ==> b !in parts)
      && strategy.Ok(backends, cacheStore)
    }

    /** The store's history is what the answered requests left there. */
    ghost predicate Recorded()
      reads this`successes, cacheStore
    {
      cacheStore.log == Remembered(cacheTtl, successes)
    }

    /** The server starts on round_robin with an empty store. */
    constructor (backends: seq<Backend>, cacheTtl: int, digest: string -> string)
      ensures Valid() && fresh(parts) && fresh(cacheStore) && fresh(metrics)
      ensures this.backends == backends && this.cacheTtl == cacheTtl && this.digest == digest
      ensures strategy.RoundRobin? && strategy.Used() == 0 && cacheStore.clock == 0
      ensures successes == [] && Recorded()
      ensures metrics.latencyEma == map[] && metrics.strategyCounts == map[] && metrics.backendCounts == map[]
      ensures metrics.inFlight == metrics.requestsTotal == metrics.backendErrors == 0
      ensures metrics.kvCacheHits == metrics.kvCacheMisses == 0
    {
      successes := [];
      this.backends := backends;
      this.cacheTtl := cacheTtl;
      this.digest := digest;
      cacheStore := new MemoryStore();
      metrics := new Metrics.State();
      var rr := new RoundRobinStrategy.RoundRobin(backends);
      strategy := RoundRobin(rr);
      counters := {};
      parts := {rr};
    }

    function CacheKey(r: ChatRequest.Request): string
    {
      KeyOf(digest, r)
    }

    /** The backend name that the store's history prefers for this key now, provided a backend
        of that name is healthy: what a kv_aware request must hit. */
    ghost function MustHit(key: string, now: int): Option<string>
      reads backends, cacheStore
    {
      match Lookup(cacheStore.log, key, now)
      case None => None
      case Some(name) =>
        if exists b :: b in backends && b.name == name && b.healthy then Some(name) else None
    }

    /** In terms of the run: the latest answered request under this key was answered by a backend
        of that name, that has not outlived the effective ttl, and such a backend is healthy. */
    lemma MustHitIff(key: string, now: int, name: string)
      requires Recorded()
      ensures MustHit(key, now) == Some(name) <==>
              && Called(successes, cacheTtl, key, now, name)
              && exists b :: b in backends && b.name == name && b.healthy
    {
      LookupIsLatestSuccess(cacheTtl, successes, key, now, name);
    }

    /** /readyz agrees with routability: ready exactly when a request would be served. */
    method HandleReadyz() returns (ready: bool)
      requires Valid()
      ensures ready <==> exists b :: b in backends && b.healthy
    {
      ready := strategy.HasHealthyBackend(backends, cacheStore);
    }

    /** Switching installs a new instance, with new counters at zero, and keeps health, store
        and history. */
    method SetStrategy(raw: string) returns (name: Option<string>)
      requires Valid()
      modifies this`strategy, this`counters, this`parts
      ensures Valid() && name == NormalizeStrategyName(raw)
      ensures name.None? ==> strategy == old(strategy) && parts == old(parts)
      ensures name.Some? ==>
                && strategy.Name() == name.value && Installs(name.value, strategy) && strategy.Used() == 0
                && fresh(parts) && forall c :: c in counters ==> c.value == 0
    {
      name := NormalizeStrategyName(raw);
      if name.None? {
        return;
      }
      strategy := NewStrategy(name.value);
      counters := strategy.Known();
      parts := {strategy.Root()} + counters;
    }

    /** A new instance of a runtime strategy on the configured backends. */
    method NewStrategy(name: string) returns (s: Strategy)
      requires cacheStore.Valid()
      requires name == "round_robin" || name == "least_pending" || name == "random" || name == "kv_aware"
      ensures s.Name() == name && Installs(name, s) && s.Used() == 0 && s.Ok(backends, cacheStore)
      ensures fresh(s.Root()) && fresh(s.Known())
      ensures forall c :: c in s.Known() ==> c.value == 0
    {
      match name {
        case "round_robin" =>
          var rr := new RoundRobinStrategy.RoundRobin(backends);
          s := RoundRobin(rr);
        case "least_pending" =>
          var lp := new LeastPendingStrategy.LeastPending(backends);
          s := LeastPending(lp);
        case "random" =>
          var rand := new RandomStrategy.Random(backends);
          s := Random(rand);
        case _ =>
          var kv := new KVAwareStrategy.KVAware(backends, cacheStore);
          s := KVAware(kv);
      }
    }

    /** A probe round sets every backend's health to its probe's result. */
    method ProbeBackends(results: seq<bool>)
      requires Valid() && |results| == |backends| && Books.Distinct(backends)
      modifies backends
      ensures Valid()
      ensures forall i :: 0 <= i < |backends| ==> backends[i].healthy == results[i]
    {
      for i := 0 to |backends|
        invariant Valid()
        invariant forall j :: 0 <= j < i ==> backends[j].healthy == results[j]
      {
        backends[i].SetHealthy(results[i]);
      }
    }

    /** What one request adds to the counters: whether it was accepted, whom it selected (and
        whether by affinity), and whether the call failed. Nothing stays in flight. */
    twostate predicate Counted(accepted: bool, selected: Backend?, hit: bool, failed: bool)
      reads metrics
    {
      && metrics.requestsTotal == old(metrics.requestsTotal) + (if accepted then 1 else 0)
      && metrics.inFlight == old(metrics.inFlight)
      && metrics.backendErrors == old(metrics.backendErrors) + (if failed then 1 else 0)
      && (if selected == null
          then metrics.strategyCounts == old(metrics.strategyCounts)
          else Metrics.Incremented(old(metrics.strategyCounts), metrics.strategyCounts, old(strategy).Name()))
      && (if selected == null
          then metrics.backendCounts == old(metrics.backendCounts)
          else Metrics.Incremented(old(metrics.backendCounts), metrics.backendCounts, selected.name))
      && metrics.kvCacheHits == old(metrics.kvCacheHits) + (if selected != null && hit then 1 else 0)
      && metrics.kvCacheMisses == old(metrics.kvCacheMisses)
           + (if selected != null && old(strategy).KVAware? && !hit then 1 else 0)
    }

    /** The latency average takes in the call to the selected backend, if there was one. */
    twostate predicate Measured(selected: Backend?, reply: Reply)
      reads metrics
    {
      metrics.latencyEma == if selected == null then old(metrics.latencyEma)
                            else Metrics.Recorded(old(metrics.latencyEma), Metrics.Sample(selected.name, reply.latency))
    }

    /** Every counter of the active instance is at zero, as it is between requests. */
    ghost predicate Idle()
      reads this`counters, counters
    {
      forall c :: c in counters ==> c.value == 0
    }

    /** Counts one selection; hit or miss only under kv_aware. */
    method RecordSelection(d: Decision)
      requires (d.cacheHit ==> strategy.KVAware?)
      modifies metrics
      ensures Counted(false, d.backend, d.cacheHit, false) && metrics.latencyEma == old(metrics.latencyEma)
    {
      metrics.RecordStrategy(strategy.Name());
      metrics.RecordBackend(d.backend.name);
      if strategy.Name() == "kv_aware" {
        if d.cacheHit {
          metrics.kvCacheHits := metrics.kvCacheHits + 1;
        } else {
          metrics.kvCacheMisses := metrics.kvCacheMisses + 1;
        }
      }
    }

    /** recordAffinity: nothing without a key or a name. */
    method RecordAffinity(key: string, name: string, at: int)
      requires cacheStore.Valid() && cacheStore.clock <= at
      modifies cacheStore
      ensures cacheStore.Valid() && cacheStore.clock <= at
      ensures cacheStore.log == old(cacheStore.log)
                + if key == "" || name == "" then [] else [Remember(key, name, cacheTtl, at)]
    {
      if key == "" || name == "" {
        return;
      }
      cacheStore.RememberBackend(key, name, cacheTtl, at);
    }

    /** From the in-flight increment to its decrement: the call, its latency, and either the
        failure's marks or the affinity record. */
    method CallBackend(backend: Backend, key: string, reply: Reply)
      requires cacheStore.Valid() && cacheStore.clock <= reply.at
      modifies metrics, cacheStore, backend
      ensures cacheStore.Valid() && cacheStore.clock <= reply.at && Counted(false, null, false, !reply.ok)
      ensures Measured(backend, reply)
      ensures backend.healthy == (old(backend.healthy) && reply.ok)
      ensures cacheStore.log == old(cacheStore.log) + Answered(backend, key, reply)
    {
      metrics.inFlight := metrics.inFlight + 1;
      metrics.RecordLatency(backend.name, reply.latency);
      if !reply.ok {
        backend.SetHealthy(false);
        metrics.backendErrors := metrics.backendErrors + 1;
      } else {
        RecordAffinity(key, backend.name, reply.at);
      }
      metrics.inFlight := metrics.inFlight - 1;
    }

    /** What a reply adds to the store's history: one entry if it is a success. */
    function Answered(backend: Backend, key: string, reply: Reply): seq<Remember>
    {
      if reply.ok then RememberedOne(cacheTtl, Success(key, backend.name, reply.at)) else []
    }

    /** Everything after a successful Select, up to and including the deferred release. */
    method Serve(d: Decision, key: string, reply: Reply)
      requires Valid() && d.backend in backends && cacheStore.clock <= reply.at
      requires !d.fired && (d.cacheHit ==> strategy.KVAware?) && (d.counter != null ==> d.counter in counters)
      modifies metrics, cacheStore, d, d.backend, d.counter
      ensures Counted(false, d.backend, d.cacheHit, !reply.ok) && Measured(d.backend, reply)
      ensures strategy.Used() == old(strategy.Used()) && cacheStore.clock <= reply.at
      ensures d.backend.healthy == (old(d.backend.healthy) && reply.ok)
      ensures cacheStore.log == old(cacheStore.log) + Answered(d.backend, key, reply)
      ensures forall c :: c in counters ==> c.value == old(c.value) - if d.counter == c then d.amount else 0
      ensures Valid()
    {
      RecordSelection(d);
      CallBackend(d.backend, key, reply);
      strategy.GiveBack(backends, cacheStore, d);
    }

    /** The active strategy selects. */
    method Choose(key: string, now: int, draw: nat) returns (selection: Selection)
      requires Valid() && strategy.TicketsLeft() && key != "" && cacheStore.clock <= now
      modifies cacheStore, parts
      ensures strategy.Used() == old(strategy.Used())
                + strategy.Tickets(backends, selection.Selected? && selection.decision.cacheHit)
      ensures old(Idle()) && selection.Selected? && !selection.decision.cacheHit ==>
                Some(selection.decision.backend) == old(strategy.Fallback(backends, draw))
      ensures selection.Selected? <==> exists b :: b in backends && b.healthy
      ensures strategy.KVAware? && old(MustHit(key, now)).Some? <==> selection.Selected? && selection.decision.cacheHit
      ensures selection.Selected? ==>
                var d := selection.decision;
                && fresh(d) && !d.fired && d.backend in backends && d.backend.healthy
                && (d.counter != null ==> d.counter in counters)
                && (d.cacheHit ==> d.backend.name == old(MustHit(key, now)).value)
      ensures OnlyCharged(counters, selection)
      ensures cacheStore.log == old(cacheStore.log) && cacheStore.clock <= now && Valid()
    {
      selection := strategy.Select(backends, cacheStore, key, now, draw);
    }

    /** Selection and service of an accepted request with its cache key. */
    method Route(key: string, now: int, draw: nat, reply: Reply) returns (served: Backend?, hit: bool)
      requires Valid() && strategy.TicketsLeft() && key != "" && cacheStore.clock <= now <= reply.at
      modifies metrics, cacheStore, parts, backends
      ensures served != null <==> exists b :: b in backends && old(b.healthy)
      ensures served != null ==> served in backends && old(served.healthy)
      ensures hit <==> strategy.KVAware? && old(MustHit(key, now)).Some?
      ensures hit ==> served != null && served.name == old(MustHit(key, now)).value
      ensures forall b :: b in backends ==> b.healthy == (old(b.healthy) && (b == served ==> reply.ok))
      ensures cacheStore.log == old(cacheStore.log) + if served == null then [] else Answered(served, key, reply)
      ensures forall c :: c in counters ==> c.value == old(c.value)
      ensures Counted(false, served, hit, served != null && !reply.ok) && Measured(served, reply)
      ensures strategy.Used() == old(strategy.Used()) + strategy.Tickets(backends, hit)
      ensures old(Idle()) && served != null && !hit ==> Some(served) == old(strategy.Fallback(backends, draw))
      ensures cacheStore.clock <= reply.at
      ensures Valid()
    {
      var selection := Choose(key, now, draw);
      served, hit := null, false;
      if selection.Selected? {
        served, hit := selection.decision.backend, selection.decision.cacheHit;
        Serve(selection.decision, key, reply);
      }
    }

    /** The same, with the request counted first. */
    method Accept(key: string, now: int, draw: nat, reply: Reply) returns (served: Backend?, hit: bool)
      requires Valid() && strategy.TicketsLeft() && key != "" && cacheStore.clock <= now <= reply.at
      modifies metrics, cacheStore, parts, backends
      ensures served != null <==> exists b :: b in backends && old(b.healthy)
      ensures served != null ==> served in backends && old(served.healthy)
      ensures hit <==> strategy.KVAware? && old(MustHit(key, now)).Some?
      ensures hit ==> served != null && served.name == old(MustHit(key, now)).value
      ensures forall b :: b in backends ==> b.healthy == (old(b.healthy) && (b == served ==> reply.ok))
      ensures cacheStore.log == old(cacheStore.log) + if served == null then [] else Answered(served, key, reply)
      ensures forall c :: c in counters ==> c.value == old(c.value)
      ensures Counted(true, served, hit, served != null && !reply.ok) && Measured(served, reply)
      ensures strategy.Used() == old(strategy.Used()) + strategy.Tickets(backends, hit)
      ensures old(Idle()) && served != null && !hit ==> Some(served) == old(strategy.Fallback(backends, draw))
      ensures cacheStore.clock <= reply.at
      ensures Valid()
    {
      metrics.requestsTotal := metrics.requestsTotal + 1;
      served, hit := Route(key, now, draw, reply);
    }

    method RequestKey(r: ChatRequest.Request) returns (key: string)
      requires ChatRequest.Validate(r).Ok?
      ensures key == CacheKey(r) != ""
    {
      ValidKeyNotEmpty(digest, r);
      key := BuildCacheKey(digest, r);
    }

    /** The history of successes follows the store's. */
    ghost method NoteSuccess(backend: Backend, key: string, reply: Reply, before: seq<Remember>)
      requires reply.ok && before == Remembered(cacheTtl, successes)
      requires cacheStore.log == before + Answered(backend, key, reply)
      modifies this`successes
      ensures successes == old(successes) + [Success(key, backend.name, reply.at)] && Recorded()
    {
      RememberedSnoc(cacheTtl, successes, Success(key, backend.name, reply.at));
      successes := successes + [Success(key, backend.name, reply.at)];
    }

    /** The request's answer, and the history of successes after it. */
    method Answer(key: string, now: int, draw: nat, reply: Reply) returns (status: Status, served: Backend?, hit: bool)
      requires Valid() && Recorded() && strategy.TicketsLeft() && key != "" && cacheStore.clock <= now <= reply.at
      modifies metrics, cacheStore, parts, backends, this`successes
      ensures status == ServiceUnavailable <==> !exists b :: b in backends && old(b.healthy)
      ensures status != BadRequest && (served != null <==> status == OK || status == BadGateway)
      ensures served != null ==> served in backends && old(served.healthy) && (status == OK <==> reply.ok)
      ensures hit <==> strategy.KVAware? && old(MustHit(key, now)).Some?
      ensures hit ==> served != null && served.name == old(MustHit(key, now)).value
      ensures forall b :: b in backends ==> b.healthy == (old(b.healthy) && (b == served ==> reply.ok))
      ensures successes == old(successes) + if status == OK then [Success(key, served.name, reply.at)] else []
      ensures Recorded()
      ensures forall c :: c in counters ==> c.value == old(c.value)
      ensures Counted(true, served, hit, status == BadGateway) && Measured(served, reply)
      ensures strategy.Used() == old(strategy.Used()) + strategy.Tickets(backends, hit)
      ensures old(Idle()) && served != null && !hit ==> Some(served) == old(strategy.Fallback(backends, draw))
      ensures cacheStore.clock <= reply.at
      ensures Valid()
    {
      served, hit := Accept(key, now, draw, reply);
      status := if served == null then ServiceUnavailable else if reply.ok then OK else BadGateway;
      if status == OK {
        NoteSuccess(served, key, reply, old(cacheStore.log));
      }
    }

    /** One request. It is refused exactly when no backend is healthy; a kv_aware request is a
        cache hit exactly when, and on the backend that, the history of successes demands; only
        a failed call changes health; only an answered request enters the history; and when it
        is over every counter of the strategy is what it was. */
    method HandleChatCompletions(r: ChatRequest.Request, now: int, draw: nat, reply: Reply)
      returns (status: Status, served: Backend?, hit: bool)
      requires Valid() && Recorded() && strategy.TicketsLeft() && cacheStore.clock <= now <= reply.at
      modifies metrics, cacheStore, parts, backends, this`successes
      ensures status == BadRequest <==> !ChatRequest.Validate(r).Ok?
      ensures status == ServiceUnavailable <==>
              status != BadRequest && !exists b :: b in backends && old(b.healthy)
      ensures served != null <==> status == OK || status == BadGateway
      ensures served != null ==> served in backends && old(served.healthy) && (status == OK <==> reply.ok)
      ensures hit <==> status != BadRequest && strategy.KVAware? && old(MustHit(CacheKey(r), now)).Some?
      ensures hit ==> served != null && served.name == old(MustHit(CacheKey(r), now)).value
      ensures forall b :: b in backends ==> b.healthy == (old(b.healthy) && (b == served ==> reply.ok))
      ensures successes == old(successes) + if status == OK then [Success(CacheKey(r), served.name, reply.at)] else []
      ensures Recorded()
      ensures forall c :: c in counters ==> c.value == old(c.value)
      ensures Counted(status != BadRequest, served, hit, status == BadGateway) && Measured(served, reply)
      ensures strategy.Used() == old(strategy.Used())
                + if status == BadRequest then 0 else strategy.Tickets(backends, hit)
      ensures old(Idle()) && served != null && !hit ==> Some(served) == old(strategy.Fallback(backends, draw))
      ensures cacheStore.clock <= reply.at
      ensures Valid()
    {
      served, hit := null, false;
      if ChatRequest.Validate(r) != ChatRequest.Ok {
        return BadRequest, served, hit;
      }
      var key := RequestKey(r);
      status, served, hit := Answer(key, now, draw, reply);
    }
  }
}
