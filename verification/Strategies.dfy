/** The strategy interface as the server uses it: one of the four runtime strategies. */
module Strategies {
  import opened Sums
  import opened Ring
  import opened Books
  import opened Backends
  import opened LoadTracking
  import opened Cache
  import RoundRobinStrategy
  import LeastPendingStrategy
  import RandomStrategy
  import KVAwareStrategy
  import Collapse

  datatype Strategy =
    | RoundRobin(rr: RoundRobinStrategy.RoundRobin)
    | LeastPending(lp: LeastPendingStrategy.LeastPending)
    | Random(rand: RandomStrategy.Random)
    | KVAware(kv: KVAwareStrategy.KVAware)
  {
    function Name(): string
    {
      match this
      case RoundRobin(_) => "round_robin"
      case LeastPending(_) => "least_pending"
      case Random(_) => "random"
      case KVAware(_) => "kv_aware"
    }

    ghost function Root(): object
    {
      match this
      case RoundRobin(rr) => rr
      case LeastPending(lp) => lp
      case Random(rand) => rand
      case KVAware(kv) => kv
    }

    /** Every counter the instance allocated. */
    ghost function Known(): set<Counter>
      reads Root()
    {
      match this
      case RoundRobin(_) => {}
      case LeastPending(lp) => lp.Known()
      case Random(_) => {}
      case KVAware(kv) => kv.Known()
    }

    ghost predicate Ok(backends: seq<Backend>, store: MemoryStore)
      reads Root(), Known()
    {
      match this
      case RoundRobin(rr) => rr.backends == backends && rr.next < TICKET_LIMIT
      case LeastPending(lp) => lp.Valid() && lp.backends == backends && lp.next < TICKET_LIMIT
      case Random(rand) => rand.backends == backends
      case KVAware(kv) => kv.Valid() && kv.backends == backends && kv.store == store && kv.next < TICKET_LIMIT
    }

    /** How many tickets the instance has handed out. */
    ghost function Used(): nat
      reads Root()
    {
      match this
      case RoundRobin(rr) => rr.next
      case LeastPending(lp) => lp.next
      case Random(_) => 0
      case KVAware(kv) => kv.next
    }

    /** There is a ticket left after the next one. */
    ghost predicate TicketsLeft()
      reads Root()
    {
      Used() + 1 < TICKET_LIMIT
    }

    /** The tickets that one Select takes. */
    function Tickets(backends: seq<Backend>, hit: bool): nat
    {
      if Random? || backends == [] || hit then 0 else 1
    }

    /** Every counter is back at zero. */
    ghost predicate Idle()
      reads Root(), Known()
    {
      forall c :: c in Known() ==> c.value == 0
    }

    /** Whom an idle instance serves without affinity: random whom it draws, the others the
        backend whose turn it is. */
    ghost function Fallback(backends: seq<Backend>, draw: nat): Option<Backend>
      reads Root(), backends
    {
      if Random? then Drawn(backends, draw) else InTurn(backends, Used())
    }

    /** The backend that affinity would serve. */
    ghost function Affine(backends: seq<Backend>, store: MemoryStore, key: string, now: int): Option<Backend>
      reads backends, store
    {
      if KVAware? then KVAwareStrategy.Match(backends, KVAwareStrategy.Preferred(store, key, now)) else None
    }

    /** Select of whichever strategy: some healthy listed backend if there is one; a cache hit
        exactly on an affine backend; and of all counters of the instance only the decision's
        moves, by what the decision will give back. */
    method Select(backends: seq<Backend>, store: MemoryStore, key: string, now: int, draw: nat)
      returns (r: Selection)
      requires Ok(backends, store) && TicketsLeft() && store.Valid() && store.clock <= now
      modifies Root(), Known(), store
      ensures Ok(backends, store) && Known() == old(Known())
      ensures Used() == old(Used()) + Tickets(backends, r.Selected? && r.decision.cacheHit)
      ensures store.Valid() && store.log == old(store.log) && store.clock <= now
      ensures r.Selected? <==> exists b :: b in backends && b.healthy
      ensures r.Selected? ==>
                var d := r.decision;
                && fresh(d) && !d.fired && d.backend in backends && d.backend.healthy
                && (d.counter != null ==> d.counter in Known())
                && d.cacheHit == old(Affine(backends, store, key, now)).Some?
                && (d.cacheHit ==> d.backend == old(Affine(backends, store, key, now)).value)
      ensures old(Idle()) && r.Selected? && !r.decision.cacheHit ==>
                Some(r.decision.backend) == old(Fallback(backends, draw))
      ensures OnlyCharged(Known(), r)
    {
      match this {
        case RoundRobin(rr) =>
          InTurnIsPick(rr.backends, HealthySet(rr.backends), rr.next);
          r := rr.Select();
        case LeastPending(lp) =>
          r := SelectLeastPending(lp);
        case Random(rand) =>
          r := rand.Select(draw);
        case KVAware(kv) =>
          r := SelectKVAware(kv, key, now);
      }
    }

    /** Releasing a decision that has not been released moves only its counter, and keeps the
        instance consistent. */
    method GiveBack(backends: seq<Backend>, store: MemoryStore, d: Decision)
      requires Ok(backends, store) && !d.fired && (d.counter != null ==> d.counter in Known())
      modifies d, d.counter
      ensures Ok(backends, store) && d.fired && Known() == old(Known()) && Used() == old(Used())
      ensures forall c :: c in Known() ==> c.value == old(c.value) - if d.counter == c then d.amount else 0
    {
      d.Release();
    }

    method HasHealthyBackend(backends: seq<Backend>, store: MemoryStore) returns (r: bool)
      requires Ok(backends, store)
      ensures r <==> exists b :: b in backends && b.healthy
    {
      match this {
        case RoundRobin(rr) => r := rr.HasHealthyBackend();
        case LeastPending(lp) => r := lp.HasHealthyBackend();
        case Random(rand) => r := rand.HasHealthyBackend();
        case KVAware(kv) => r := kv.HasHealthyBackend();
      }
    }
  }

  /** The first healthy backend in ring order from a start, j of them having been passed. */
  ghost function FirstUp(backends: seq<Backend>, start: nat, j: nat): Option<Backend>
    requires start < |backends|
    reads backends
    decreases |backends| - j
  {
    if j >= |backends| then None
    else
      var b := backends[At(start, j, |backends|)];
      if b.healthy then Some(b) else FirstUp(backends, start, j + 1)
  }

  /** The backend whose turn a ticket is. */
  ghost function InTurn(backends: seq<Backend>, ticket: nat): Option<Backend>
    reads backends
  {
    if backends == [] then None else FirstUp(backends, ticket % |backends|, 0)
  }

  lemma {:induction false} FirstUpIsFirstTrue(backends: seq<Backend>, up: set<Backend>, start: nat, j: nat)
    requires start < |backends| && j <= |backends|
    requires forall b :: b in backends ==> (b.healthy <==> b in up)
    requires forall i :: 0 <= i < j ==> backends[At(start, i, |backends|)] !in up
    ensures FirstUp(backends, start, j) == match FirstHealthy(Health(backends, up), start)
                                           case None => None
                                           case Some(k) => Some(backends[k])
    decreases |backends| - j
  {
    var seen := Ordered(Health(backends, up), start);
    FirstTrueCorrect(seen);
    if j < |backends| {
      assert backends[At(start, j, |backends|)] in backends;
      if seen[j] {
        assert IsFirstTrue(seen, j);
      } else {
        FirstUpIsFirstTrue(backends, up, start, j + 1);
      }
    }
  }

  /** It is round_robin's pick. */
  lemma InTurnIsPick(backends: seq<Backend>, up: set<Backend>, ticket: nat)
    requires forall b :: b in backends ==> (b.healthy <==> b in up)
    ensures InTurn(backends, ticket) == RoundRobinPick(backends, up, ticket).1
  {
    if backends != [] {
      FirstUpIsFirstTrue(backends, up, ticket % |backends|, 0);
    }
  }

  ghost function Drawn(backends: seq<Backend>, draw: nat): Option<Backend>
    reads backends
  {
    var ones := RandomStrategy.HealthyOnes(backends);
    if ones == [] then None else Some(ones[draw % |ones|])
  }

  /** Of the counters in `known`, only the decision's moved, by the amount it will give back. */
  twostate predicate OnlyCharged(known: set<Counter>, new r: Selection)
    reads known
  {
    forall c :: c in known ==>
      c.value == old(c.value) + if r.Selected? && r.decision.counter == c then r.decision.amount else 0
  }

  /** Books that moved at most at the granted counter, read back as counter objects. */
  lemma ValuesAfter(known: set<Counter>, before: map<Counter, int>, r: Selection,
                    outcome: (Book<Backend, Counter>, Grant<Backend, Counter>))
    requires ValuesOf(known) == outcome.0.values && before.Keys == known
    requires r.Selected? <==> outcome.1.Granted?
    requires outcome.1.Refused? ==> outcome.0.values == before
    requires outcome.1.Granted? ==>
               && outcome.1.counter in before && r.decision.counter == outcome.1.counter
               && outcome.0.values == before[outcome.1.counter := outcome.1.pending]
               && outcome.1.pending == before[outcome.1.counter] + r.decision.amount
    ensures forall c :: c in known ==>
              c.value == before[c] + if r.Selected? && r.decision.counter == c then r.decision.amount else 0
  {
    assert forall c :: c in known ==> c.value == ValuesOf(known)[c];
  }

  /** On books whose counters all read zero the least loaded is the one whose turn it is. */
  lemma LevelIsInTurn(a: Book<Backend, Counter>, healthy: set<Backend>)
    requires WellFormed(a) && forall c :: c in a.values ==> a.values[c] == 0
    ensures var g := Books.Select(a, healthy, 1).1;
            g.Granted? ==> Some(g.backend) == RoundRobinPick(a.backends, healthy, a.next).1
  {
    Collapse.LevelBooksPickRoundRobin(a, healthy, 1, 0);
  }

  method SelectLeastPending(lp: LeastPendingStrategy.LeastPending) returns (r: Selection)
    requires lp.Valid() && lp.next < TICKET_LIMIT
    modifies lp`next, lp.Known()
    ensures lp.Valid() && lp.owner == old(lp.owner) && lp.backends == old(lp.backends)
    ensures lp.next == old(lp.next) + if lp.backends == [] then 0 else 1
    ensures old(forall c :: c in lp.Known() ==> c.value == 0) && r.Selected? ==>
              Some(r.decision.backend) == old(InTurn(lp.backends, lp.next))
    ensures r.Selected? <==> exists b :: b in lp.backends && b.healthy
    ensures r.Selected? ==>
              var d := r.decision;
              && fresh(d) && !d.fired && d.backend in lp.backends && d.backend.healthy
              && d.counter in lp.Known() && !d.cacheHit
    ensures OnlyCharged(lp.Known(), r)
  {
    ghost var before, turn := lp.Accounts(), InTurn(lp.backends, lp.next);
    ghost var outcome := Books.Select(before, HealthySet(lp.backends), 1);
    ConsistentIsWellFormed(lp.backends, lp.loads, lp.owner, lp.next);
    FallbackServes(before, None, outcome, turn);
    r := lp.Select();
    ValuesAfter(lp.Known(), before.values, r, outcome);
  }

  /** What a Select of the books promises the server: `turn` is whose turn it is. */
  lemma FallbackServes(a: Book<Backend, Counter>, found: Option<Backend>,
                       outcome: (Book<Backend, Counter>, Grant<Backend, Counter>), turn: Option<Backend>)
    requires WellFormed(a) && (found.Some? ==> found.value in a.backends && found.value.healthy)
    requires outcome == SelectOr(a, HealthySet(a.backends), found) && turn == InTurn(a.backends, a.next)
    ensures var (r, g) := outcome;
            && (g.Granted? <==> exists b :: b in a.backends && b.healthy)
            && (g.Granted? ==> g.backend in a.backends && g.backend.healthy)
            && (found.Some? ==> g.Granted? && g.backend == found.value)
            && r.next == (if found.Some? || a.backends == [] then a.next else a.next + 1)
            && (g.Granted? ==> g.counter in a.values && g.pending == a.values[g.counter] + 1
                               && r.values == a.values[g.counter := g.pending])
            && (g.Refused? ==> r.values == a.values)
            && (found.None? && g.Granted? && (forall c :: c in a.values ==> a.values[c] == 0) ==>
                  Some(g.backend) == turn)
  {
    SelectOrServes(a, HealthySet(a.backends), found);
    if found.None? && forall c :: c in a.values ==> a.values[c] == 0 {
      LevelIsInTurn(a, HealthySet(a.backends));
      InTurnIsPick(a.backends, HealthySet(a.backends), a.next);
    }
  }

  method SelectKVAware(kv: KVAwareStrategy.KVAware, key: string, now: int) returns (r: Selection)
    requires kv.Valid() && kv.next < TICKET_LIMIT
    requires kv.store != null && kv.store.Valid() && kv.store.clock <= now
    modifies kv`next, kv.Known(), kv.store
    ensures kv.Valid() && kv.owner == old(kv.owner) && kv.backends == old(kv.backends)
    ensures kv.next == old(kv.next) + if kv.backends == [] || (r.Selected? && r.decision.cacheHit) then 0 else 1
    ensures old(forall c :: c in kv.Known() ==> c.value == 0) && r.Selected? && !r.decision.cacheHit ==>
              Some(r.decision.backend) == old(InTurn(kv.backends, kv.next))
    ensures kv.store.Valid() && kv.store.log == old(kv.store.log) && kv.store.clock <= now
    ensures r.Selected? <==> exists b :: b in kv.backends && b.healthy
    ensures r.Selected? ==>
              var d := r.decision;
              var found := old(KVAwareStrategy.Match(kv.backends, KVAwareStrategy.Preferred(kv.store, key, now)));
              && fresh(d) && !d.fired && d.backend in kv.backends && d.backend.healthy
              && d.counter in kv.Known() && d.cacheHit == found.Some? && (d.cacheHit ==> d.backend == found.value)
    ensures OnlyCharged(kv.Known(), r)
  {
    ghost var before, turn := kv.Accounts(), InTurn(kv.backends, kv.next);
    ghost var found := KVAwareStrategy.Match(kv.backends, KVAwareStrategy.Preferred(kv.store, key, now));
    ghost var outcome := SelectOr(before, HealthySet(kv.backends), found);
    ConsistentIsWellFormed(kv.backends, kv.loads, kv.owner, kv.next);
    FallbackServes(before, found, outcome, turn);
    r := kv.Select(key, now);
    ValuesAfter(kv.Known(), before.values, r, outcome);
  }
}
