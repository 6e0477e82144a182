/** Whole sequential runs of a server: any sequence of requests, switches, probes and readiness
    checks from its start, and what every call of the run is answered in terms of the calls
    before it. */
module ServerRuns {
  import opened Sums
  import opened GoText
  import opened Backends
  import opened AffinityHistory
  import opened Server
  import opened CacheKeys
  import opened KVAwareStrategy
  import opened Kinds
  import Books
  import ChatRequest
  import RandomStrategy
  import Ring
  import Strategies

  datatype Call =
    | Request(r: ChatRequest.Request, now: int, draw: nat, reply: Reply)
    | Switch(raw: string)
    | Probe(results: seq<bool>)
    | Ready

  datatype Outcome =
    | Answer(status: Status, served: Backend?, hit: bool)
    | Switched
    | Probed
    | Readiness(ready: bool)

  /** A request that was answered, by whom, and when that was recorded. */
  datatype Answered = Answered(r: ChatRequest.Request, backend: Backend, at: int)

  /** What calls and outcomes alone say about a server: the active strategy, the tickets
      taken since it became active, who is healthy, and every request that was answered. */
  datatype Trail = Trail(active: Kind, turn: nat, up: set<Backend>, answered: seq<Answered>)

  /** What a server is configured with. */
  datatype Site = Site(backends: seq<Backend>, ttl: int, digest: string -> string)

  ghost predicate WellFormed(r: ChatRequest.Request)
  {
    !Blank(r.model) && r.messages != []
  }

  ghost function After(site: Site, t: Trail, c: Call, o: Outcome): Trail
  {
    match c
    case Request(r, _, _, reply) =>
      if !o.Answer? || !WellFormed(r) then t
      else
        var spent := if t.active.Random? || site.backends == [] || o.hit then 0 else 1;
        var t1 := t.(turn := t.turn + spent);
        if o.served == null then t1
        else if !reply.ok then t1.(up := t.up - {o.served})
        else t1.(answered := t.answered + [Answered(r, o.served, reply.at)])
    case Switch(raw) =>
      var name := NormalizeStrategyName(raw);
      if name.Some? then t.(active := KindNamed(name.value), turn := 0) else t
    case Probe(results) =>
      t.(up := set i | 0 <= i < |site.backends| && i < |results| && results[i] :: site.backends[i])
    case Ready => t
  }

  /** The trail after the first k calls. */
  ghost function TrailOf(site: Site, start: Trail, calls: seq<Call>, outcomes: seq<Outcome>, k: nat): Trail
    requires k <= |calls| && k <= |outcomes|
  {
    if k == 0 then start
    else After(site, TrailOf(site, start, calls, outcomes, k - 1), calls[k - 1], outcomes[k - 1])
  }

  /** The text of a request: its trimmed parts, line by line. */
  function Text(r: ChatRequest.Request): string
  {
    ChatRequest.Joined(ChatRequest.Normal(r).model, ChatRequest.Normal(r).messages)
  }

  /** Counts for the affinity of r: a request whose text has the same digest, answered by a backend
      with a name. */
  predicate Concerns(site: Site, a: Answered, r: ChatRequest.Request)
  {
    site.digest(Text(a.r)) == site.digest(Text(r)) && a.backend.name != ""
  }

  ghost predicate LatestConcerning(site: Site, answered: seq<Answered>, r: ChatRequest.Request, j: nat)
  {
    && j < |answered| && Concerns(site, answered[j], r)
    && forall i :: j < i < |answered| ==> !Concerns(site, answered[i], r)
  }

  /** Answered request j makes r hit b now: it is the latest that concerns r, was answered by b, and
      that at most the ttl ago (ten minutes, in nanoseconds, if none is set). */
  ghost predicate CallsFor(site: Site, t: Trail, r: ChatRequest.Request, now: int, b: Backend, j: nat)
  {
    && LatestConcerning(site, t.answered, r, j) && t.answered[j].backend == b
    && now <= t.answered[j].at + if site.ttl <= 0 then 600_000_000_000 else site.ttl
  }

  ghost predicate Calling(site: Site, t: Trail, r: ChatRequest.Request, now: int, b: Backend)
  {
    exists j: nat :: CallsFor(site, t, r, now, b, j)
  }

  /** Request r must hit b: some answered request makes it, b is healthy, and kv_aware is active. */
  ghost predicate MustHitOn(site: Site, t: Trail, r: ChatRequest.Request, now: int, b: Backend)
  {
    && t.active.KVAware? && b in t.up
    && Calling(site, t, r, now, b)
  }

  /** Whom the active strategy serves without a hit: random the drawn one of the healthy, every
      other the first healthy one from the position whose turn it is. */
  ghost function Unhit(site: Site, t: Trail, draw: nat): Option<Backend>
  {
    if t.active.Random? then
      var ones := Books.Up(site.backends, t.up);
      if ones == [] then None else Some(ones[draw % |ones|])
    else Books.RoundRobinPick(site.backends, t.up, t.turn).1
  }

  /** What a call must be answered after the trail t. */
  ghost predicate Exact(site: Site, t: Trail, c: Call, o: Outcome)
  {
    match c
    case Request(r, now, draw, reply) =>
      && o.Answer?
      && (o.status == BadRequest <==> !WellFormed(r))
      && (o.status == ServiceUnavailable <==> WellFormed(r) && forall b :: b in site.backends ==> b !in t.up)
      && (o.served != null <==> o.status == OK || o.status == BadGateway)
      && (o.hit ==> o.served != null)
      && (o.served != null ==> o.served in site.backends && o.served in t.up && (o.status == OK <==> reply.ok))
      && (forall b :: b in site.backends ==>
            (o.served == b && o.hit <==> WellFormed(r) && MustHitOn(site, t, r, now, b)))
      && (o.served != null && !o.hit ==> Some(o.served) == Unhit(site, t, draw))
    case Switch(_) => o.Switched?
    case Probe(_) => o.Probed?
    case Ready => o.Readiness? && (o.ready <==> exists b :: b in site.backends && b in t.up)
  }

  /** That leaves no choice: the calls alone fix the outcomes. */
  lemma ExactIsUnique(site: Site, t: Trail, c: Call, o: Outcome, o': Outcome)
    requires Exact(site, t, c, o) && Exact(site, t, c, o')
    ensures o == o'
  {
    if c.Request? {
      if o.hit {
        assert o.served in site.backends;
      }
      if o'.hit {
        assert o'.served in site.backends;
      }
    }
  }

  /** One request after another, on a clock that does not run backwards, and complete probes. */
  predicate TimedOne(c: Call, from: int, n: nat)
  {
    match c
    case Request(_, now, _, reply) => from <= now <= reply.at
    case Probe(results) => |results| == n
    case _ => true
  }

  function ClockAfter(c: Call, from: int): int
  {
    if c.Request? then c.reply.at else from
  }

  predicate Timed(calls: seq<Call>, i: nat, from: int, n: nat)
    decreases |calls| - i
  {
    i >= |calls| || (TimedOne(calls[i], from, n) && Timed(calls, i + 1, ClockAfter(calls[i], from), n))
  }

  // ----- Trail and store -----------------------------------------------------------------

  /** The server's history of successes is that of the trail. */
  function SuccessesOf(digest: string -> string, answered: seq<Answered>): (ss: seq<Success>)
    ensures |ss| == |answered|
    ensures forall j :: 0 <= j < |ss| ==>
              ss[j] == Success(KeyOf(digest, answered[j].r), answered[j].backend.name, answered[j].at)
  {
    seq(|answered|, j requires 0 <= j < |answered| =>
      Success(KeyOf(digest, answered[j].r), answered[j].backend.name, answered[j].at))
  }

  lemma ValidIff(r: ChatRequest.Request)
    ensures WellFormed(r) <==> ChatRequest.Validate(r).Ok?
  {
    ChatRequest.ValidateIff(r);
  }

  lemma UnderIff(site: Site, a: Answered, r: ChatRequest.Request)
    requires HexDigest(site.digest) && WellFormed(a.r) && WellFormed(r)
    ensures Success(KeyOf(site.digest, a.r), a.backend.name, a.at).Under(TrimSpace(KeyOf(site.digest, r)))
            <==> Concerns(site, a, r)
  {
    ValidIff(a.r);
    ValidIff(r);
    KeyIsTrimmed(site.digest, a.r);
    KeyIsTrimmed(site.digest, r);
    KeysEqualIff(site.digest, a.r, r);
    TrimmedIsFixed(a.backend.name);
  }

  lemma LatestIff(site: Site, answered: seq<Answered>, r: ChatRequest.Request, j: nat)
    requires HexDigest(site.digest) && WellFormed(r) && forall a :: a in answered ==> WellFormed(a.r)
    ensures LatestUnder(SuccessesOf(site.digest, answered), TrimSpace(KeyOf(site.digest, r)), j)
            <==> LatestConcerning(site, answered, r, j)
  {
    forall i | 0 <= i < |answered|
      ensures SuccessesOf(site.digest, answered)[i].Under(TrimSpace(KeyOf(site.digest, r)))
              <==> Concerns(site, answered[i], r)
    {
      UnderIff(site, answered[i], r);
    }
  }

  // ----- Performing a run ----------------------------------------------------------------

  function SiteOf(s: Server): Site
  {
    Site(s.backends, s.cacheTtl, s.digest)
  }

  function KindOf(s: Strategies.Strategy): Kind
  {
    match s
    case RoundRobin(_) => Kind.RoundRobin
    case LeastPending(_) => Kind.LeastPending
    case Random(_) => Kind.Random
    case KVAware(_) => Kind.KVAware
  }

  /** The server is where its trail says it is, and idle. */
  ghost predicate Follows(s: Server, t: Trail)
    reads s, s.strategy.Root(), s.counters, s.backends
  {
    && KindOf(s.strategy) == t.active && s.strategy.Used() == t.turn && s.Idle()
    && (forall a :: a in t.answered ==> WellFormed(a.r) && a.backend in s.backends)
    && s.successes == SuccessesOf(s.digest, t.answered)
    && forall b :: b in s.backends ==> (b.healthy <==> b in t.up)
  }

  lemma UniqueName(backends: seq<Backend>, b: Backend, d: Backend)
    requires NamesDistinct(backends) && b in backends && d in backends && b.name == d.name
    ensures b == d
  {
  }

  lemma LatestMatches(s: Server, t: Trail, r: ChatRequest.Request, now: int, b: Backend, j: nat)
    requires Follows(s, t) && HexDigest(s.digest) && NamesDistinct(s.backends)
    requires b in s.backends && WellFormed(r)
    ensures LatestUnder(s.successes, TrimSpace(s.CacheKey(r)), j) && TrimSpace(s.successes[j].backend) == b.name
            <==> LatestConcerning(SiteOf(s), t.answered, r, j) && t.answered[j].backend == b
  {
    LatestIff(SiteOf(s), t.answered, r, j);
    if j < |t.answered| {
      assert t.answered[j] in t.answered;
      TrimmedIsFixed(t.answered[j].backend.name);
      if t.answered[j].backend.name == b.name {
        UniqueName(s.backends, t.answered[j].backend, b);
      }
    }
  }

  lemma SomeCallsFor(s: Server, t: Trail, r: ChatRequest.Request, now: int, b: Backend)
    requires Follows(s, t) && HexDigest(s.digest) && NamesDistinct(s.backends)
    requires b in s.backends && WellFormed(r)
    ensures Called(s.successes, s.cacheTtl, s.CacheKey(r), now, b.name) <==> Calling(SiteOf(s), t, r, now, b)
  {
    forall j: nat
      ensures AffinityHistory.CallsFor(s.successes, s.cacheTtl, s.CacheKey(r), now, b.name, j)
              <==> CallsFor(SiteOf(s), t, r, now, b, j)
    {
      LatestMatches(s, t, r, now, b, j);
    }
  }

  lemma NamedHealthy(backends: seq<Backend>, b: Backend)
    requires NamesDistinct(backends) && b in backends
    ensures (exists d :: d in backends && d.name == b.name && d.healthy) <==> b.healthy
  {
  }

  lemma HitIsExact(s: Server, t: Trail, r: ChatRequest.Request, key: string, now: int, b: Backend)
    requires s.Recorded() && b in s.backends && NamesDistinct(s.backends)
    requires (t.active.KVAware? <==> s.strategy.KVAware?) && (b.healthy <==> b in t.up)
    requires Called(s.successes, s.cacheTtl, key, now, b.name) <==> Calling(SiteOf(s), t, r, now, b)
    ensures MustHitOn(SiteOf(s), t, r, now, b) <==> s.strategy.KVAware? && s.MustHit(key, now) == Some(b.name)
  {
    NamedHealthy(s.backends, b);
    s.MustHitIff(key, now, b.name);
  }

  lemma UnhitIsFallback(s: Server, t: Trail, draw: nat)
    requires Follows(s, t)
    ensures s.strategy.Fallback(s.backends, draw) == Unhit(SiteOf(s), t, draw)
  {
    RandomStrategy.HealthyOnesAreUp(s.backends, t.up);
    Strategies.InTurnIsPick(s.backends, t.up, t.turn);
  }

  lemma HitIsRight(s: Server, t: Trail, r: ChatRequest.Request, now: int, b: Backend)
    requires s.Recorded() && Follows(s, t) && HexDigest(s.digest) && NamesDistinct(s.backends)
    requires b in s.backends && WellFormed(r)
    ensures MustHitOn(SiteOf(s), t, r, now, b) <==>
            s.strategy.KVAware? && s.MustHit(s.CacheKey(r), now) == Some(b.name)
  {
    SomeCallsFor(s, t, r, now, b);
    HitIsExact(s, t, r, s.CacheKey(r), now, b);
  }

  /** The backend that r must hit, if any. */
  lemma HitsOf(s: Server, t: Trail, r: ChatRequest.Request, now: int) returns (hits: set<Backend>)
    requires s.Recorded() && Follows(s, t) && HexDigest(s.digest) && NamesDistinct(s.backends)
    ensures forall b :: b in hits ==> b in s.backends
    ensures forall b :: b in s.backends ==> (b in hits <==> WellFormed(r) && MustHitOn(SiteOf(s), t, r, now, b))
    ensures WellFormed(r) ==> forall b :: b in s.backends ==>
              (b in hits <==> s.strategy.KVAware? && s.MustHit(s.CacheKey(r), now) == Some(b.name))
  {
    hits := set b | b in s.backends && WellFormed(r) && MustHitOn(SiteOf(s), t, r, now, b);
    if WellFormed(r) {
      forall b | b in s.backends
        ensures MustHitOn(SiteOf(s), t, r, now, b) <==>
                s.strategy.KVAware? && s.MustHit(s.CacheKey(r), now) == Some(b.name)
      {
        HitIsRight(s, t, r, now, b);
      }
    }
  }

  /** What the outcome of a request says in terms of who is up, whom it must hit and whose turn it
      is otherwise. */
  ghost predicate Fits(backends: seq<Backend>, up: set<Backend>, hits: set<Backend>, turn: Option<Backend>,
                       valid: bool, reply: Reply, o: Outcome)
  {
    && o.Answer?
    && (o.status == BadRequest <==> !valid)
    && (o.status == ServiceUnavailable <==> valid && forall b :: b in backends ==> b !in up)
    && (o.served != null <==> o.status == OK || o.status == BadGateway)
    && (o.hit ==> o.served != null)
    && (o.served != null ==> o.served in backends && o.served in up && (o.status == OK <==> reply.ok))
    && (forall b :: b in backends ==> (o.served == b && o.hit <==> b in hits))
    && (o.served != null && !o.hit ==> Some(o.served) == turn)
  }

  /** The request, and what it changes. */
  method Handle(s: Server, r: ChatRequest.Request, now: int, draw: nat, reply: Reply,
                ghost up: set<Backend>, ghost hits: set<Backend>, ghost turn: Option<Backend>)
    returns (o: Outcome)
    requires s.Valid() && s.Recorded() && s.strategy.TicketsLeft() && s.cacheStore.clock <= now <= reply.at
    requires s.Idle() && NamesDistinct(s.backends)
    requires forall b :: b in s.backends ==> (b.healthy <==> b in up)
    requires !ChatRequest.Validate(r).Ok? ==> hits == {}
    requires ChatRequest.Validate(r).Ok? ==> forall b :: b in s.backends ==>
               (b in hits <==> s.strategy.KVAware? && s.MustHit(s.CacheKey(r), now) == Some(b.name))
    requires turn == s.strategy.Fallback(s.backends, draw)
    modifies s.metrics, s.cacheStore, s.parts, s.backends, s`successes
    ensures s.Valid() && s.Recorded() && s.cacheStore.clock <= reply.at && s.Idle()
    ensures Fits(s.backends, up, hits, turn, ChatRequest.Validate(r).Ok?, reply, o)
    ensures s.strategy.Used() == old(s.strategy.Used())
              + if ChatRequest.Validate(r).Ok? then s.strategy.Tickets(s.backends, o.hit) else 0
    ensures s.successes == old(s.successes)
              + if o.status == OK then [Success(s.CacheKey(r), o.served.name, reply.at)] else []
    ensures forall b :: b in s.backends ==> (b.healthy <==> b in up && (b == o.served ==> reply.ok))
  {
    var status, served, hit := s.HandleChatCompletions(r, now, draw, reply);
    o := Answer(status, served, hit);
    forall b | b in s.backends ensures served == b && hit <==> b in hits {
      if hit && b.name == served.name {
        UniqueName(s.backends, b, served);
      }
    }
  }

  lemma SuccessesSnoc(digest: string -> string, answered: seq<Answered>, a: Answered)
    ensures SuccessesOf(digest, answered + [a])
            == SuccessesOf(digest, answered) + [Success(KeyOf(digest, a.r), a.backend.name, a.at)]
  {
  }

  lemma FitsIsExact(site: Site, t: Trail, r: ChatRequest.Request, now: int, draw: nat, reply: Reply,
                    hits: set<Backend>, o: Outcome)
    requires Fits(site.backends, t.up, hits, Unhit(site, t, draw), WellFormed(r), reply, o)
    requires forall b :: b in site.backends ==> (b in hits <==> WellFormed(r) && MustHitOn(site, t, r, now, b))
    ensures Exact(site, t, Request(r, now, draw, reply), o)
  {
  }

  lemma RequestFollows(s: Server, t: Trail, r: ChatRequest.Request, now: int, draw: nat, reply: Reply, o: Outcome)
    requires KindOf(s.strategy) == t.active && s.Idle() && o.Answer?
    requires forall a :: a in t.answered ==> WellFormed(a.r) && a.backend in s.backends
    requires s.strategy.Used() == t.turn + if WellFormed(r) then s.strategy.Tickets(s.backends, o.hit) else 0
    requires o.served != null <==> o.status == OK || o.status == BadGateway
    requires o.status == BadRequest <==> !WellFormed(r)
    requires o.served != null ==> o.served in s.backends && (o.status == OK <==> reply.ok)
    requires s.successes == SuccessesOf(s.digest, t.answered)
               + if o.status == OK then [Success(s.CacheKey(r), o.served.name, reply.at)] else []
    requires forall b :: b in s.backends ==> (b.healthy <==> b in t.up && (b == o.served ==> reply.ok))
    ensures Follows(s, After(SiteOf(s), t, Request(r, now, draw, reply), o))
  {
    if o.status == OK {
      SuccessesSnoc(s.digest, t.answered, Answered(r, o.served, reply.at));
    }
  }

  method PerformRequest(s: Server, r: ChatRequest.Request, now: int, draw: nat, reply: Reply, ghost t: Trail)
    returns (o: Outcome)
    requires s.Valid() && s.Recorded() && s.strategy.TicketsLeft() && s.cacheStore.clock <= now <= reply.at
    requires HexDigest(s.digest) && NamesDistinct(s.backends) && Follows(s, t)
    modifies s.metrics, s.cacheStore, s.parts, s.backends, s`successes
    ensures s.Valid() && s.Recorded() && s.cacheStore.clock <= reply.at
    ensures s.strategy.Used() <= old(s.strategy.Used()) + 1
    ensures Exact(SiteOf(s), t, Request(r, now, draw, reply), o)
    ensures Follows(s, After(SiteOf(s), t, Request(r, now, draw, reply), o))
  {
    ValidIff(r);
    UnhitIsFallback(s, t, draw);
    ghost var hits := HitsOf(s, t, r, now);
    o := Handle(s, r, now, draw, reply, t.up, hits, s.strategy.Fallback(s.backends, draw));
    FitsIsExact(SiteOf(s), t, r, now, draw, reply, hits, o);
    RequestFollows(s, t, r, now, draw, reply, o);
  }

  method PerformProbe(s: Server, results: seq<bool>, ghost t: Trail)
    requires s.Valid() && s.Recorded() && |results| == |s.backends|
    requires NamesDistinct(s.backends) && Follows(s, t)
    modifies s.backends
    ensures s.Valid() && s.Recorded()
    ensures Follows(s, After(SiteOf(s), t, Probe(results), Probed))
  {
    assert Books.Distinct(s.backends);
    s.ProbeBackends(results);
    ghost var up := After(SiteOf(s), t, Probe(results), Probed).up;
    forall b | b in s.backends ensures b.healthy <==> b in up {
      var i :| 0 <= i < |s.backends| && s.backends[i] == b;
      if b in up {
        var k :| 0 <= k < |s.backends| && results[k] && s.backends[k] == b;
        UniqueName(s.backends, s.backends[k], b);
      }
    }
  }

  lemma {:induction false} TrailOfPrefix(site: Site, start: Trail, calls: seq<Call>, outcomes: seq<Outcome>,
                                         o: Outcome, k: nat)
    requires k <= |calls| && k <= |outcomes|
    ensures TrailOf(site, start, calls, outcomes + [o], k) == TrailOf(site, start, calls, outcomes, k)
  {
    if k > 0 {
      TrailOfPrefix(site, start, calls, outcomes, o, k - 1);
    }
  }

  /** Call k is answered as the trail before it demands. */
  ghost predicate ExactAt(site: Site, start: Trail, calls: seq<Call>, outcomes: seq<Outcome>, k: nat)
    requires k < |outcomes| <= |calls|
  {
    Exact(site, TrailOf(site, start, calls, outcomes, k), calls[k], outcomes[k])
  }

  lemma ExactAtSnoc(site: Site, start: Trail, calls: seq<Call>, outcomes: seq<Outcome>, o: Outcome, k: nat)
    requires k <= |outcomes| < |calls|
    requires if k < |outcomes| then ExactAt(site, start, calls, outcomes, k)
             else Exact(site, TrailOf(site, start, calls, outcomes, k), calls[k], o)
    ensures ExactAt(site, start, calls, outcomes + [o], k)
  {
    TrailOfPrefix(site, start, calls, outcomes, o, k);
  }

  lemma ExactSnoc(site: Site, start: Trail, calls: seq<Call>, outcomes: seq<Outcome>, o: Outcome)
    requires |outcomes| < |calls|
    requires forall k :: 0 <= k < |outcomes| ==> ExactAt(site, start, calls, outcomes, k)
    requires Exact(site, TrailOf(site, start, calls, outcomes, |outcomes|), calls[|outcomes|], o)
    ensures forall k :: 0 <= k <= |outcomes| ==> ExactAt(site, start, calls, outcomes + [o], k)
    ensures TrailOf(site, start, calls, outcomes + [o], |outcomes|) == TrailOf(site, start, calls, outcomes, |outcomes|)
  {
    forall k | 0 <= k <= |outcomes| ensures ExactAt(site, start, calls, outcomes + [o], k) {
      ExactAtSnoc(site, start, calls, outcomes, o, k);
    }
    TrailOfPrefix(site, start, calls, outcomes, o, |outcomes|);
  }

  /** Two sequences of outcomes that are exact for the same calls are the same. */
  lemma {:induction false} RunIsUnique(site: Site, start: Trail, calls: seq<Call>, os: seq<Outcome>, os': seq<Outcome>,
                                       n: nat)
    requires n <= |os| == |os'| == |calls|
    requires forall k :: 0 <= k < |calls| ==> ExactAt(site, start, calls, os, k) && ExactAt(site, start, calls, os', k)
    ensures TrailOf(site, start, calls, os, n) == TrailOf(site, start, calls, os', n)
    ensures forall k :: 0 <= k < n ==> os[k] == os'[k]
  {
    if n > 0 {
      RunIsUnique(site, start, calls, os, os', n - 1);
      assert ExactAt(site, start, calls, os, n - 1) && ExactAt(site, start, calls, os', n - 1);
      ExactIsUnique(site, TrailOf(site, start, calls, os, n - 1), calls[n - 1], os[n - 1], os'[n - 1]);
    }
  }

  /** What a call leaves the server with, beyond its trail. */
  method Perform(s: Server, c: Call, ghost t: Trail, ghost from: int) returns (o: Outcome)
    requires s.Valid() && s.Recorded() && s.strategy.TicketsLeft() && s.cacheStore.clock <= from
    requires HexDigest(s.digest) && NamesDistinct(s.backends) && Follows(s, t)
    requires TimedOne(c, from, |s.backends|)
    modifies s, s.metrics, s.cacheStore, s.parts, s.backends
    ensures s.Valid() && s.Recorded() && s.strategy.Used() <= old(s.strategy.Used()) + 1
    ensures s.cacheStore.clock <= ClockAfter(c, from)
    ensures s.parts == old(s.parts) || fresh(s.parts)
    ensures Exact(SiteOf(s), t, c, o)
    ensures Follows(s, After(SiteOf(s), t, c, o))
  {
    match c {
      case Request(r, now, draw, reply) =>
        o := PerformRequest(s, r, now, draw, reply, t);
      case Switch(raw) =>
        var name := s.SetStrategy(raw);
        o := Switched;
      case Probe(results) =>
        PerformProbe(s, results, t);
        o := Probed;
      case Ready =>
        var ready := s.HandleReadyz();
        o := Readiness(ready);
    }
  }

  /** One more call of a run. */
  method Next(s: Server, calls: seq<Call>, outcomes: seq<Outcome>, ghost start: Trail, ghost from: int)
    returns (o: Outcome)
    requires |outcomes| < |calls|
    requires s.Valid() && s.Recorded() && s.strategy.TicketsLeft() && s.cacheStore.clock <= from
    requires HexDigest(s.digest) && NamesDistinct(s.backends)
    requires Follows(s, TrailOf(SiteOf(s), start, calls, outcomes, |outcomes|))
    requires TimedOne(calls[|outcomes|], from, |s.backends|)
    requires forall k :: 0 <= k < |outcomes| ==> ExactAt(SiteOf(s), start, calls, outcomes, k)
    modifies s, s.metrics, s.cacheStore, s.parts, s.backends
    ensures s.Valid() && s.Recorded() && s.strategy.Used() <= old(s.strategy.Used()) + 1
    ensures s.cacheStore.clock <= ClockAfter(calls[|outcomes|], from)
    ensures s.parts == old(s.parts) || fresh(s.parts)
    ensures forall k :: 0 <= k <= |outcomes| ==> ExactAt(SiteOf(s), start, calls, outcomes + [o], k)
    ensures Follows(s, TrailOf(SiteOf(s), start, calls, outcomes + [o], |outcomes| + 1))
  {
    o := Perform(s, calls[|outcomes|], TrailOf(SiteOf(s), start, calls, outcomes, |outcomes|), from);
    ExactSnoc(SiteOf(s), start, calls, outcomes, o);
  }

  method Start(backends: seq<Backend>, cacheTtl: int, digest: string -> string) returns (s: Server)
    ensures fresh(s) && fresh(s.parts) && fresh(s.cacheStore) && fresh(s.metrics)
    ensures SiteOf(s) == Site(backends, cacheTtl, digest)
    ensures s.Valid() && s.Recorded() && s.strategy.Used() == 0 && s.cacheStore.clock == 0
    ensures Follows(s, Trail(RoundRobin, 0, HealthySet(backends), []))
  {
    s := new Server(backends, cacheTtl, digest);
  }

  /** Any run of a server from its start. Every request is refused exactly when nothing is healthy,
      and is a cache hit on a backend exactly when kv_aware is active, the latest answered request
      with the same text (as far as the digest tells) was answered by that backend within the ttl,
      in this run and under whatever strategy, and the backend is healthy now. Without a hit,
      round_robin, least_pending and kv_aware all serve the first healthy backend from the
      position of their next ticket, counted from the switch, and random the one drawn. */
  method Run(backends: seq<Backend>, cacheTtl: int, digest: string -> string, calls: seq<Call>)
    returns (outcomes: seq<Outcome>)
    requires HexDigest(digest) && NamesDistinct(backends)
    requires Timed(calls, 0, 0, |backends|) && |calls| + 1 < Ring.TICKET_LIMIT
    modifies backends
    ensures |outcomes| == |calls|
    ensures var start := Trail(RoundRobin, 0, old(HealthySet(backends)), []);
            forall k :: 0 <= k < |calls| ==> ExactAt(Site(backends, cacheTtl, digest), start, calls, outcomes, k)
  {
    ghost var start := Trail(RoundRobin, 0, HealthySet(backends), []);
    ghost var site := Site(backends, cacheTtl, digest);
    var s := Start(backends, cacheTtl, digest);
    ghost var from := 0;
    outcomes := [];
    for i := 0 to |calls|
      invariant |outcomes| == i && SiteOf(s) == site
      invariant fresh(s) && fresh(s.parts) && fresh(s.cacheStore) && fresh(s.metrics)
      invariant s.Valid() && s.Recorded() && s.strategy.Used() <= i && s.cacheStore.clock <= from
      invariant Timed(calls, i, from, |backends|)
      invariant forall k :: 0 <= k < i ==> ExactAt(site, start, calls, outcomes, k)
      invariant Follows(s, TrailOf(site, start, calls, outcomes, i))
    {
      var o := Next(s, calls, outcomes, start, from);
      outcomes := outcomes + [o];
      from := ClockAfter(calls[i], from);
    }
  }
}
