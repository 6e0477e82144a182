/** When least_pending is round_robin: with every decision released before the next Select, and
    with no release at all while everything stays healthy. */
module Collapse {
  import opened Sums
  import opened Ring
  import opened Books
  import opened SelectMachine

  function Chosen<B, C>(g: Grant<B, C>): Option<B>
  {
    match g
    case Refused => None
    case Granted(b, _, _) => Some(b)
  }

  /** On books whose counters all read the same, least_pending takes round_robin's backend. */
  lemma LevelBooksPickRoundRobin<B, C>(a: Book<B, C>, healthy: set<B>, cost: int, level: int)
    requires WellFormed(a)
    requires forall b :: b in a.loads ==> a.values[a.loads[b]] == level
    ensures var (r, g) := Select(a, healthy, cost);
            (r.next, Chosen(g)) == RoundRobinPick(a.backends, healthy, a.next)
  {
    if a.backends != [] {
      var start := a.next % |a.backends|;
      var v, h := View(a, healthy), Health(a.backends, healthy);
      forall k | 0 <= k < |v| ensures v[k] == if h[k] then Some(level) else None {
        assert a.backends[k] in a.loads;
      }
      EqualLoadsChooseFirst(Ordered(v, start), Ordered(h, start), level);
    }
  }

  // ----- Released before the next Select -------------------------------------------------

  datatype Event = Serve | Publish(backends: seq<nat>) | SetHealthy(b: nat, up: bool)

  datatype Rotation = Rotation(backends: seq<nat>, healthy: set<nat>, next: nat, served: seq<Option<nat>>)

  function RoundRobinEvent(r: Rotation, e: Event): Rotation
  {
    match e
    case Serve =>
      var (next, b) := RoundRobinPick(r.backends, r.healthy, r.next);
      r.(next := next, served := r.served + [b])
    case Publish(backends) => r.(backends := backends)
    case SetHealthy(b, up) => if up then r.(healthy := r.healthy + {b}) else r.(healthy := r.healthy - {b})
  }

  datatype Pending = Pending(book: Ledger, epoch: nat, healthy: set<nat>, served: seq<Option<nat>>)

  /** Serve selects, answers, and releases what it was granted. */
  function LeastPendingEvent(p: Pending, e: Event): Pending
  {
    match e
    case Serve =>
      var (book, g) := Select(p.book, p.healthy, 1);
      var settled := match g
        case Refused => book
        case Granted(_, c, _) => book.(values := book.values[c := Value(book, c) - 1]);
      p.(book := settled, served := p.served + [Chosen(g)])
    case Publish(backends) => p.(book := Rebind(p.book, p.epoch, backends), epoch := p.epoch + 1)
    case SetHealthy(b, up) => p.(healthy := if up then p.healthy + {b} else p.healthy - {b})
  }

  function RunRoundRobin(r: Rotation, es: seq<Event>): Rotation
  {
    if es == [] then r else RoundRobinEvent(RunRoundRobin(r, es[..|es| - 1]), es[|es| - 1])
  }

  function RunLeastPending(p: Pending, es: seq<Event>): Pending
  {
    if es == [] then p else LeastPendingEvent(RunLeastPending(p, es[..|es| - 1]), es[|es| - 1])
  }

  ghost predicate Idle(p: Pending)
  {
    && WellFormed(p.book)
    && (forall c :: c in p.book.values ==> p.book.values[c] == 0 && c.epoch < p.epoch)
  }

  ghost predicate SameRotation(p: Pending, r: Rotation)
  {
    p.book.backends == r.backends && p.healthy == r.healthy && p.book.next == r.next && p.served == r.served
  }

  lemma EventKeepsRotation(p: Pending, r: Rotation, e: Event)
    requires Idle(p) && SameRotation(p, r)
    ensures Idle(LeastPendingEvent(p, e)) && SameRotation(LeastPendingEvent(p, e), RoundRobinEvent(r, e))
  {
    match e
    case Serve =>
      LevelBooksPickRoundRobin(p.book, p.healthy, 1, 0);
      SelectServesLeastLoaded(p.book, p.healthy, 1);
      var (book, g) := Select(p.book, p.healthy, 1);
      if g.Granted? {
        assert book.values[g.counter := 0] == p.book.values;
      }
    case Publish(backends) =>
      RepublishedWellFormed(p.book, backends, Rebind(p.book, p.epoch, backends));
    case SetHealthy(_, _) =>
  }

  lemma {:induction false} IdleRunsAgree(p: Pending, r: Rotation, es: seq<Event>)
    requires Idle(p) && SameRotation(p, r)
    ensures Idle(RunLeastPending(p, es)) && SameRotation(RunLeastPending(p, es), RunRoundRobin(r, es))
  {
    if es != [] {
      var n := |es| - 1;
      IdleRunsAgree(p, r, es[..n]);
      EventKeepsRotation(RunLeastPending(p, es[..n]), RunRoundRobin(r, es[..n]), es[n]);
    }
  }

  /** Fed the same Selects, health changes and lists, a least_pending instance whose decisions
      are each released before the next Select answers exactly as round_robin does, refusals
      included. */
  lemma ReleasedLeastPendingIsRoundRobin(backends: seq<nat>, healthy: set<nat>, es: seq<Event>)
    ensures RunLeastPending(Pending(Fresh(backends, healthy).book, 1, healthy, []), es).served
            == RunRoundRobin(Rotation(backends, healthy, 0, []), es).served
  {
    FreshInv(backends, healthy);
    IdleRunsAgree(Pending(Fresh(backends, healthy).book, 1, healthy, []), Rotation(backends, healthy, 0, []), es);
  }

  // ----- Never released, everything healthy ----------------------------------------------

  /** Along the ring from the next start, the last `extra` positions are one above the rest. */
  ghost predicate Staircase<B, C>(a: Book<B, C>, level: int, extra: nat)
  {
    && WellFormed(a) && Distinct(a.backends) && extra < |a.backends|
    && forall j :: 0 <= j < |a.backends| ==>
         LoadAhead(a, j) == level + if j >= |a.backends| - extra then 1 else 0
  }

  /** The load at the j-th position of the next scan. */
  function LoadAhead<B, C>(a: Book<B, C>, j: nat): int
    requires a.backends != []
  {
    LoadAt(a, At(a.next % |a.backends|, j, |a.backends|))
  }

  /** The backend whose turn a ticket is. */
  function Turn<B>(backends: seq<B>, ticket: nat): B
    requires backends != []
  {
    backends[ticket % |backends|]
  }

  function LoadAt<B, C>(a: Book<B, C>, k: nat): int
    requires k < |a.backends|
  {
    LoadOn(a, a.backends[k])
  }

  lemma NextAt(start: nat, j: nat, n: nat)
    requires start < n && j < n
    ensures At((start + 1) % n, j, n) == At(start, if j + 1 < n then j + 1 else 0, n)
  {
    SmallMod(start + 1, n);
    SmallMod(j + 1, n);
    SmallMod((start + 1) % n + j, n);
    SmallMod(start + (j + 1) % n, n);
  }

  lemma NextStart(next: nat, n: nat)
    requires n > 0
    ensures (next + 1) % n == (next % n + 1) % n
  {
    ModPlus(next, 1, n);
  }

  /** The next start is at the foot of the staircase, so it is chosen. */
  lemma StaircaseChooses(v: seq<Option<int>>, start: nat, level: int, extra: nat)
    requires start < |v| && extra < |v|
    requires forall j :: 0 <= j < |v| ==>
               v[At(start, j, |v|)] == Some(level + if j >= |v| - extra then 1 else 0)
    ensures Choose(v, start) == Some(start)
  {
    var seen := Ordered(v, start);
    BestIsFirstLeast(seen);
    assert IsFirstLeast(seen, 0);
    SmallMod(start, |v|);
  }

  lemma StaircaseGrants<B, C>(a: Book<B, C>, healthy: set<B>, level: int, extra: nat)
    requires Staircase(a, level, extra)
    requires forall b :: b in a.backends ==> b in healthy
    ensures var (r, g) := Select(a, healthy, 1);
            var b := Turn(a.backends, a.next);
            && g.Granted? && g.backend == b && b in a.loads && a.loads[b] in a.values
            && r == Charge(a.(next := a.next + 1), b, 1).0
  {
    var v := View(a, healthy);
    forall k | 0 <= k < |v| ensures v[k] == Some(LoadAt(a, k)) {
      assert a.backends[k] in healthy && a.backends[k] in a.loads;
    }
    var start := a.next % |v|;
    forall j | 0 <= j < |v|
      ensures v[At(start, j, |v|)] == Some(level + if j >= |v| - extra then 1 else 0)
    {
      assert LoadAhead(a, j) == level + if j >= |v| - extra then 1 else 0;
    }
    StaircaseChooses(v, start, level, extra);
  }

  /** Charging position `start` raises exactly that position's load. */
  lemma ChargeRaisesOne<B, C>(a: Book<B, C>, start: nat, k: nat)
    requires WellFormed(a) && Distinct(a.backends) && start < |a.backends| && k < |a.backends|
    ensures a.backends[start] in a.loads && a.loads[a.backends[start]] in a.values
    ensures LoadAt(Charge(a.(next := a.next + 1), a.backends[start], 1).0, k)
            == LoadAt(a, k) + if k == start then 1 else 0
  {
    assert a.backends[start] in a.loads && a.backends[k] in a.loads;
    assert k != start ==> a.backends[k] != a.backends[start];
  }

  /** After the charge the next scan sees the old one moved up by one, with the charged
      position last and one higher. */
  lemma ChargeShifts<B, C>(a: Book<B, C>, j: nat)
    requires WellFormed(a) && Distinct(a.backends) && j < |a.backends|
    ensures var b := Turn(a.backends, a.next);
            && b in a.loads && a.loads[b] in a.values
            && var r := Charge(a.(next := a.next + 1), b, 1).0;
               LoadAhead(r, j) == if j + 1 < |a.backends| then LoadAhead(a, j + 1) else LoadAhead(a, 0) + 1
  {
    var n := |a.backends|;
    var start := a.next % n;
    var i := if j + 1 < n then j + 1 else 0;
    NextStart(a.next, n);
    NextAt(start, j, n);
    SmallMod(start, n);
    AtIsInjective(start, i, 0, n);
    ChargeRaisesOne(a, start, At(start, i, n));
  }

  lemma StaircaseStep<B, C>(a: Book<B, C>, healthy: set<B>, level: int, extra: nat)
    requires Staircase(a, level, extra)
    requires forall b :: b in a.backends ==> b in healthy
    ensures var (r, g) := Select(a, healthy, 1);
            && Chosen(g) == Some(Turn(a.backends, a.next))
            && r.backends == a.backends && r.next == a.next + 1
            && if extra + 1 < |a.backends| then Staircase(r, level, extra + 1) else Staircase(r, level + 1, 0)
  {
    StaircaseGrants(a, healthy, level, extra);
    SelectServesLeastLoaded(a, healthy, 1);
    var r := Select(a, healthy, 1).0;
    forall j | 0 <= j < |a.backends|
      ensures LoadAhead(r, j) == if j + 1 < |a.backends| then LoadAhead(a, j + 1) else LoadAhead(a, 0) + 1
    {
      ChargeShifts(a, j);
    }
  }

  function OneMore<B, C>(p: (Book<B, C>, seq<Option<B>>), healthy: set<B>): (Book<B, C>, seq<Option<B>>)
  {
    var (after, g) := Select(p.0, healthy, 1);
    (after, p.1 + [Chosen(g)])
  }

  /** The books after k Selects without release, and the backends they chose. */
  function Unreleased<B, C>(a: Book<B, C>, healthy: set<B>, k: nat): (Book<B, C>, seq<Option<B>>)
  {
    if k == 0 then (a, []) else OneMore(Unreleased(a, healthy, k - 1), healthy)
  }

  ghost predicate InTurn<B>(served: seq<Option<B>>, backends: seq<B>, next: nat)
    requires backends != []
  {
    forall i :: 0 <= i < |served| ==> served[i] == Some(Turn(backends, next + i))
  }

  lemma InTurnSnoc<B>(served: seq<Option<B>>, backends: seq<B>, next: nat)
    requires backends != [] && InTurn(served, backends, next)
    ensures InTurn(served + [Some(Turn(backends, next + |served|))], backends, next)
  {
  }

  lemma LevelIsStaircase<B, C>(a: Book<B, C>, level: int)
    requires WellFormed(a) && Distinct(a.backends) && a.backends != []
    requires forall b :: b in a.loads ==> a.values[a.loads[b]] == level
    ensures Staircase(a, level, 0)
  {
    forall k | 0 <= k < |a.backends| ensures LoadAt(a, k) == level {
      assert a.backends[k] in a.loads;
    }
  }

  ghost predicate Climbing<B, C>(backends: seq<B>, next: nat, k: nat, p: (Book<B, C>, seq<Option<B>>),
                                 level: int, extra: nat)
    requires backends != []
  {
    && p.0.backends == backends && p.0.next == next + k
    && Staircase(p.0, level, extra)
    && |p.1| == k && InTurn(p.1, backends, next)
  }

  lemma ClimbOn<B, C>(backends: seq<B>, next: nat, k: nat, p: (Book<B, C>, seq<Option<B>>), healthy: set<B>,
                      level: int, extra: nat)
    requires backends != [] && Climbing(backends, next, k, p, level, extra)
    requires forall b :: b in backends ==> b in healthy
    ensures if extra + 1 < |backends|
            then Climbing(backends, next, k + 1, OneMore(p, healthy), level, extra + 1)
            else Climbing(backends, next, k + 1, OneMore(p, healthy), level + 1, 0)
  {
    StaircaseStep(p.0, healthy, level, extra);
    InTurnSnoc(p.1, backends, next);
  }

  lemma {:induction false} UnreleasedClimbs<B, C>(a: Book<B, C>, healthy: set<B>, base: int, k: nat)
    returns (level: int, extra: nat)
    requires a.backends != [] && Staircase(a, base, 0)
    requires forall b :: b in a.backends ==> b in healthy
    ensures Climbing(a.backends, a.next, k, Unreleased(a, healthy, k), level, extra)
  {
    if k == 0 {
      level, extra := base, 0;
    } else {
      level, extra := UnreleasedClimbs(a, healthy, base, k - 1);
      ClimbOn(a.backends, a.next, k - 1, Unreleased(a, healthy, k - 1), healthy, level, extra);
      level, extra := if extra + 1 < |a.backends| then level else level + 1,
                      if extra + 1 < |a.backends| then extra + 1 else 0;
    }
  }

  lemma ClimbingServes<B, C>(backends: seq<B>, next: nat, k: nat, p: (Book<B, C>, seq<Option<B>>),
                             level: int, extra: nat, i: nat)
    requires backends != [] && Climbing(backends, next, k, p, level, extra) && i < k
    ensures |p.1| == k && p.1[i] == Some(Turn(backends, next + i))
  {
  }

  lemma ClimbInTurn<B, C>(a: Book<B, C>, healthy: set<B>, base: int, k: nat, i: nat)
    requires a.backends != [] && Staircase(a, base, 0) && i < k
    requires forall b :: b in a.backends ==> b in healthy
    ensures |Unreleased(a, healthy, k).1| == k
    ensures Unreleased(a, healthy, k).1[i] == Some(Turn(a.backends, a.next + i))
  {
    var p := Unreleased(a, healthy, k);
    assert |p.1| == k && p.1[i] == Some(Turn(a.backends, a.next + i)) by {
      var level, extra := UnreleasedClimbs(a, healthy, base, k);
      ClimbingServes(a.backends, a.next, k, p, level, extra, i);
    }
  }

  lemma UnreleasedInTurn<B, C>(a: Book<B, C>, healthy: set<B>, level: int, k: nat, i: nat)
    requires WellFormed(a) && Distinct(a.backends) && a.backends != []
    requires forall b :: b in a.backends ==> b in healthy
    requires forall b :: b in a.loads ==> a.values[a.loads[b]] == level
    requires i < k
    ensures |Unreleased(a, healthy, k).1| == k
    ensures Unreleased(a, healthy, k).1[i] == Some(Turn(a.backends, a.next + i))
  {
    LevelIsStaircase(a, level);
    ClimbInTurn(a, healthy, level, k, i);
  }

  /** From level counters, with every listed backend healthy and nothing released, the i-th
      Select of least_pending is the i-th pick of round_robin. */
  lemma UnreleasedLeastPendingIsRoundRobin<B, C>(a: Book<B, C>, healthy: set<B>, level: int, k: nat, i: nat)
    requires WellFormed(a) && Distinct(a.backends) && a.backends != []
    requires forall b :: b in a.backends ==> b in healthy
    requires forall b :: b in a.loads ==> a.values[a.loads[b]] == level
    requires i < k
    ensures |Unreleased(a, healthy, k).1| == k
    ensures Unreleased(a, healthy, k).1[i] == RoundRobinPick(a.backends, healthy, a.next + i).1
  {
    UnreleasedInTurn(a, healthy, level, k, i);
    AllUpPicksTurn(a.backends, healthy, a.next + i);
  }

  lemma AllUpPicksTurn<B>(backends: seq<B>, healthy: set<B>, ticket: nat)
    requires backends != [] && forall b :: b in backends ==> b in healthy
    ensures RoundRobinPick(backends, healthy, ticket) == (ticket + 1, Some(Turn(backends, ticket)))
  {
    var h := Health(backends, healthy);
    var start := ticket % |backends|;
    FirstTrueCorrect(Ordered(h, start));
    SmallMod(start, |backends|);
    assert backends[start] in backends;
    assert IsFirstTrue(Ordered(h, start), 0);
  }
}
