/** How uneven concurrent least-loaded Selects can leave the healthy backends, although every
    scan reads the counters one by one and adds to its choice only later. */
module Imbalance {
  import opened Sums
  import opened Ring
  import opened Books
  import opened SelectMachine

  /** A Select that has started and has neither added to a counter nor been turned away. */
  function InFlightOne(): Thread -> int
  {
    (th: Thread) => if th.Decided? || th.Turned? then 0 else 1
  }

  function InFlight(s: State): int
  {
    Sum(s.threads, InFlightOne())
  }

  /** Only least_pending or cost_aware Selects of cost at most maxCost start and step. */
  predicate Quiet(a: Action, maxCost: nat)
  {
    a.Step? || (a.Spawn? && a.hint.None? && EffectiveCost(a.estimated) <= maxCost)
  }

  /** A quiet schedule at no point of which more than `limit` Selects are in flight. */
  predicate QuietRun(s: State, schedule: seq<Action>, limit: nat, maxCost: nat)
  {
    schedule == [] ||
    (&& QuietRun(s, schedule[..|schedule| - 1], limit, maxCost)
     && Quiet(schedule[|schedule| - 1], maxCost)
     && InFlight(Exec(s, schedule)) <= limit)
  }

  /** The cost that in-flight Selects are about to add to c on the strength of a reading <= m. */
  function AimedAt(c: CounterId, m: int): Thread -> int
  {
    (th: Thread) => Aim(th, c, m)
  }

  function Aim(th: Thread, c: CounterId, m: int): int
  {
    if th.Scanning? && th.best.Some? && th.best.value.counter == c && th.best.value.pending <= m
    then th.cost else 0
  }

  function Load(s: State, b: nat): int
  {
    LoadOn(s.book, b)
  }

  predicate Serving(s: State, b: nat)
  {
    b in s.book.loads && b in s.healthy
  }

  /** The load of b above level m, with what is still aimed at b from readings up to m. */
  function Excess(s: State, b: nat, m: int): int
    requires b in s.book.loads
  {
    Load(s, b) - m + Sum(s.threads, AimedAt(s.book.loads[b], m))
  }

  /** A Select works on the published list, and everything it has read is still a lower bound
      on the counter it was read from. */
  ghost predicate Tracks(s: State, th: Thread, maxCost: nat)
  {
    match th
    case Arrived(cost, hint) => cost <= maxCost && hint.None?
    case Ticketing(snap, cost) =>
      cost <= maxCost && snap == Snapshot(s.book.backends, s.book.loads)
    case Scanning(snap, cost, start, seen, up, _) =>
      && cost <= maxCost && snap == Snapshot(s.book.backends, s.book.loads)
      && start < |snap.backends| && |seen| <= |snap.backends|
      && (up && |seen| < |snap.backends| ==> snap.backends[At(start, |seen|, |snap.backends|)] in s.healthy)
      && (forall j :: 0 <= j < |seen| ==>
            var b := snap.backends[At(start, j, |snap.backends|)];
            && (seen[j].Some? <==> b in s.healthy)
            && (seen[j].Some? ==> seen[j].value <= Load(s, b)))
    case Probing(_, _, _, _) => false
    case Matched(_, _, _, _) => false
    case _ => true
  }

  /** The inductive bound: over any level m not below some healthy load, the excess of every
      healthy backend stays within limit * maxCost. */
  ghost predicate Balanced(s: State, limit: nat, maxCost: nat)
  {
    forall b, d, m :: Serving(s, b) && Serving(s, d) && Load(s, d) <= m ==>
      Excess(s, b, m) <= limit * maxCost
  }

  ghost predicate QuietInv(s: State, limit: nat, maxCost: nat)
  {
    && Inv(s)
    && (forall th :: th in s.threads ==> Tracks(s, th, maxCost))
    && Balanced(s, limit, maxCost)
    && InFlight(s) <= limit
  }

  /** All in-flight aims together cost at most maxCost each. */
  lemma {:induction false} AimsWithinLimit(ts: seq<Thread>, c: CounterId, m: int, maxCost: nat)
    requires forall th :: th in ts && th.Scanning? ==> th.cost <= maxCost
    ensures Sum(ts, AimedAt(c, m)) <= Sum(ts, InFlightOne()) * maxCost
  {
    if ts != [] {
      var n := |ts| - 1;
      AimsWithinLimit(ts[..n], c, m, maxCost);
      assert ts[n] in ts;
      var k := Sum(ts[..n], InFlightOne());
      assert (k + InFlightOne()(ts[n])) * maxCost == k * maxCost + InFlightOne()(ts[n]) * maxCost;
    }
  }

  /** A finished scan has a reading of every healthy backend, none below its minimum, and each
      still a lower bound: its minimum is at most every healthy load now. */
  lemma FinishedScanIsBelow(s: State, th: Thread, d: nat, maxCost: nat)
    requires Inv(s) && th in s.threads && Tracks(s, th, maxCost)
    requires th.Scanning? && |th.seen| == |th.snap.backends| && Serving(s, d)
    ensures th.best.Some? && th.best.value.pending <= Load(s, d)
  {
    var n := |th.snap.backends|;
    assert ThreadOk(s.book.values, th);
    BestIsFirstLeast(th.seen);
    var k :| 0 <= k < n && th.snap.backends[k] == d;
    var j := OffsetOf(th.start, k, n);
    assert th.seen[j].Some?;
    assert IsFirstLeast(th.seen, Best(th.seen).value);
  }

  /** A Select's Add: what it aimed becomes load, so the sum over any level it counts for does
      not move. */
  lemma CommitBalanced(s: State, t: nat, limit: nat, maxCost: nat)
    requires QuietInv(s, limit, maxCost) && t < |s.threads|
    requires var th := s.threads[t];
             th.Scanning? && |th.seen| == |th.snap.backends| && th.best.Some?
    ensures Balanced(Apply(s, Step(t)), limit, maxCost)
  {
    var th := s.threads[t];
    var s' := Apply(s, Step(t));
    assert ThreadOk(s.book.values, th) && Tracks(s, th, maxCost);
    forall b, d, m | Serving(s', b) && Serving(s', d) && Load(s', d) <= m
      ensures Excess(s', b, m) <= limit * maxCost
    {
      var c := s.book.loads[b];
      assert c in s.book.values && s.book.loads[d] in s.book.values;
      assert Serving(s, d) && Load(s, d) <= Load(s', d);
      assert Excess(s, b, m) <= limit * maxCost;
      FinishedScanIsBelow(s, th, d, maxCost);
      SumUpdate(s.threads, t, s'.threads[t], AimedAt(c, m));
    }
  }

  /** A step that adds to no counter and keeps the candidate, or has none. */
  lemma IdleBalanced(s: State, t: nat, limit: nat, maxCost: nat)
    requires QuietInv(s, limit, maxCost) && t < |s.threads|
    requires var th := s.threads[t]; var s' := Apply(s, Step(t));
             && s'.book.values == s.book.values
             && (s'.threads[t].Scanning? && s'.threads[t].best.Some? ==>
                   th.Scanning? && s'.threads[t].best == th.best && s'.threads[t].cost == th.cost)
    ensures Balanced(Apply(s, Step(t)), limit, maxCost)
  {
    var s' := Apply(s, Step(t));
    assert ThreadOk(s.book.values, s.threads[t]);
    AdvanceKeeps(s, t);
    forall b, d, m | Serving(s', b) && Serving(s', d) && Load(s', d) <= m
      ensures Excess(s', b, m) <= limit * maxCost
    {
      assert Serving(s, d) && Excess(s, b, m) <= limit * maxCost;
      assert Aim(s'.threads[t], s.book.loads[b], m) <= Aim(s.threads[t], s.book.loads[b], m);
      SumUpdate(s.threads, t, s'.threads[t], AimedAt(s.book.loads[b], m));
    }
  }

  /** A reading that becomes the candidate: its value is the counter's, so at levels where it
      counts the excess is not positive and the in-flight limit suffices. */
  lemma ReadingBalanced(s: State, t: nat, limit: nat, maxCost: nat)
    requires QuietInv(s, limit, maxCost) && t < |s.threads|
    requires var th := s.threads[t]; var th' := Apply(s, Step(t)).threads[t];
             && th.Scanning? && th'.Scanning? && th'.best.Some? && th'.best != th.best
    ensures Balanced(Apply(s, Step(t)), limit, maxCost)
  {
    var th := s.threads[t];
    var s' := Apply(s, Step(t));
    var th' := s'.threads[t];
    assert ThreadOk(s.book.values, th) && Tracks(s, th, maxCost);
    assert s'.book == s.book && s'.healthy == s.healthy;
    var k := th'.best.value;
    assert k.pending == Value(s.book, k.counter);
    forall b, d, m | Serving(s', b) && Serving(s', d) && Load(s', d) <= m
      ensures Excess(s', b, m) <= limit * maxCost
    {
      var c := s.book.loads[b];
      if k.counter == c && k.pending <= m {
        NewAimsWithinLimit(s, t, c, m, limit, maxCost);
      } else {
        assert Serving(s, d) && Excess(s, b, m) <= limit * maxCost;
        assert Aim(th', c, m) <= Aim(th, c, m);
        SumUpdate(s.threads, t, th', AimedAt(c, m));
      }
    }
  }

  lemma NewAimsWithinLimit(s: State, t: nat, c: CounterId, m: int, limit: nat, maxCost: nat)
    requires QuietInv(s, limit, maxCost) && t < |s.threads|
    requires s.threads[t].Scanning? && Apply(s, Step(t)).threads[t].Scanning?
    ensures Sum(Apply(s, Step(t)).threads, AimedAt(c, m)) <= limit * maxCost
  {
    var ts := Apply(s, Step(t)).threads;
    forall x | x in ts && x.Scanning? ensures x.cost <= maxCost {
      assert Tracks(s, s.threads[t], maxCost);
      assert x == ts[t] || x in s.threads;
    }
    AimsWithinLimit(ts, c, m, maxCost);
    SumUpdate(s.threads, t, ts[t], InFlightOne());
    Monotone(InFlight(s), limit, maxCost);
  }

  lemma Monotone(k: int, limit: nat, maxCost: nat)
    requires k <= limit
    ensures k * maxCost <= limit * maxCost
  {
  }

  lemma TracksGrows(s: State, s': State, th: Thread, maxCost: nat)
    requires Tracks(s, th, maxCost) && s'.healthy == s.healthy
    requires s'.book.backends == s.book.backends && s'.book.loads == s.book.loads
    requires forall b :: Load(s, b) <= Load(s', b)
    ensures Tracks(s', th, maxCost)
  {
  }

  lemma ReadTracks(s: State, th: Thread, o: Option<int>, best: Option<Candidate>, maxCost: nat)
    requires th.Scanning? && Tracks(s, th, maxCost) && |th.seen| < |th.snap.backends|
    requires var b := th.snap.backends[At(th.start, |th.seen|, |th.snap.backends|)];
             (o.Some? <==> b in s.healthy) && (o.Some? ==> o.value == Load(s, b))
    ensures Tracks(s, Scanning(th.snap, th.cost, th.start, th.seen + [o], false, best), maxCost)
  {
  }

  lemma AdvanceTracks(s: State, th: Thread, maxCost: nat)
    requires ThreadOk(s.book.values, th) && Tracks(s, th, maxCost)
    ensures Tracks(s, Advance(s.book, s.healthy, th).1, maxCost)
  {
    if th.Scanning? && |th.seen| < |th.snap.backends| {
      var b := th.snap.backends[At(th.start, |th.seen|, |th.snap.backends|)];
      var th' := Advance(s.book, s.healthy, th).1;
      if th.up {
        ReadTracks(s, th, Some(Load(s, b)), th'.best, maxCost);
      } else if b !in s.healthy {
        ReadTracks(s, th, None, th'.best, maxCost);
      }
    }
  }

  lemma StepTracks(s: State, t: nat, limit: nat, maxCost: nat)
    requires QuietInv(s, limit, maxCost) && t < |s.threads|
    ensures var s' := Apply(s, Step(t));
            forall th :: th in s'.threads ==> Tracks(s', th, maxCost)
  {
    var s' := Apply(s, Step(t));
    AdvanceKeeps(s, t);
    AdvanceTracks(s, s.threads[t], maxCost);
    LoadsGrow(s, t);
    forall th | th in s'.threads ensures Tracks(s', th, maxCost) {
      assert th in s.threads || th == s'.threads[t];
      TracksGrows(s, s', th, maxCost);
    }
  }

  lemma LoadsGrow(s: State, t: nat)
    requires Inv(s) && t < |s.threads|
    ensures forall b :: Load(s, b) <= Load(Apply(s, Step(t)), b)
  {
    AdvanceKeeps(s, t);
    assert ThreadOk(s.book.values, s.threads[t]);
  }

  lemma SpawnQuiet(s: State, a: Action, limit: nat, maxCost: nat)
    requires QuietInv(s, limit, maxCost) && a.Spawn? && Quiet(a, maxCost) && InFlight(Apply(s, a)) <= limit
    ensures QuietInv(Apply(s, a), limit, maxCost)
  {
    var s' := Apply(s, a);
    ApplyKeeps(s, a);
    forall b, d, m | Serving(s', b) && Serving(s', d) && Load(s', d) <= m
      ensures Excess(s', b, m) <= limit * maxCost
    {
      assert Serving(s, d) && Excess(s, b, m) <= limit * maxCost;
      SumAppend(s.threads, s'.threads[|s.threads|], AimedAt(s.book.loads[b], m));
    }
    forall th | th in s'.threads ensures Tracks(s', th, maxCost) {
      assert th in s.threads ==> Tracks(s, th, maxCost);
    }
  }

  lemma StepBalanced(s: State, t: nat, limit: nat, maxCost: nat)
    requires QuietInv(s, limit, maxCost) && t < |s.threads|
    ensures Balanced(Apply(s, Step(t)), limit, maxCost)
  {
    var th, th' := s.threads[t], Apply(s, Step(t)).threads[t];
    assert ThreadOk(s.book.values, th) && Tracks(s, th, maxCost);
    if th.Scanning? && |th.seen| == |th.snap.backends| && th.best.Some? {
      CommitBalanced(s, t, limit, maxCost);
    } else if th.Scanning? && th'.Scanning? && th'.best != th.best {
      ReadingBalanced(s, t, limit, maxCost);
    } else {
      IdleBalanced(s, t, limit, maxCost);
    }
  }

  lemma QuietStep(s: State, a: Action, limit: nat, maxCost: nat)
    requires QuietInv(s, limit, maxCost) && Quiet(a, maxCost) && InFlight(Apply(s, a)) <= limit
    ensures QuietInv(Apply(s, a), limit, maxCost)
  {
    if a.Spawn? {
      SpawnQuiet(s, a, limit, maxCost);
    } else if a.t < |s.threads| {
      ApplyKeeps(s, a);
      StepTracks(s, a.t, limit, maxCost);
      StepBalanced(s, a.t, limit, maxCost);
    }
  }

  lemma FreshQuiet(backends: seq<nat>, healthy: set<nat>, limit: nat, maxCost: nat)
    ensures QuietInv(Fresh(backends, healthy), limit, maxCost)
  {
    FreshInv(backends, healthy);
  }

  lemma {:induction false} QuietRunKeeps(backends: seq<nat>, healthy: set<nat>, schedule: seq<Action>,
                                         limit: nat, maxCost: nat)
    requires QuietRun(Fresh(backends, healthy), schedule, limit, maxCost)
    ensures QuietInv(Exec(Fresh(backends, healthy), schedule), limit, maxCost)
  {
    var f := Fresh(backends, healthy);
    if schedule == [] {
      FreshQuiet(backends, healthy, limit, maxCost);
    } else {
      QuietRunKeeps(backends, healthy, schedule[..|schedule| - 1], limit, maxCost);
      QuietStep(Exec(f, schedule[..|schedule| - 1]), schedule[|schedule| - 1], limit, maxCost);
    }
  }

  /** With a fixed list, fixed health, no releases, costs at most maxCost and never more than
      `limit` Selects in flight, no two healthy backends' loads ever differ by more than
      limit * maxCost, in any interleaving of the Selects' steps. */
  lemma WeightedImbalanceBound(backends: seq<nat>, healthy: set<nat>, schedule: seq<Action>,
                               limit: nat, maxCost: nat, b: nat, d: nat)
    requires QuietRun(Fresh(backends, healthy), schedule, limit, maxCost)
    requires b in backends && b in healthy && d in backends && d in healthy
    ensures var s := Exec(Fresh(backends, healthy), schedule);
            && b in s.book.loads && d in s.book.loads
            && Value(s.book, s.book.loads[b]) - Value(s.book, s.book.loads[d]) <= limit * maxCost
  {
    QuietRunKeeps(backends, healthy, schedule, limit, maxCost);
    QuietKeepsList(backends, healthy, schedule, limit, maxCost);
    var s := Exec(Fresh(backends, healthy), schedule);
    assert Serving(s, b) && Serving(s, d);
    var c := s.book.loads[b];
    assert Excess(s, b, Load(s, d)) <= limit * maxCost;
    forall th | th in s.threads ensures 0 <= AimedAt(c, Load(s, d))(th) {
    }
    SumNonNegative(s.threads, AimedAt(c, Load(s, d)));
  }

  lemma {:induction false} QuietKeepsList(backends: seq<nat>, healthy: set<nat>, schedule: seq<Action>,
                                          limit: nat, maxCost: nat)
    requires QuietRun(Fresh(backends, healthy), schedule, limit, maxCost)
    ensures var s := Exec(Fresh(backends, healthy), schedule);
            s.book.backends == backends && s.healthy == healthy
  {
    if schedule != [] {
      var n := |schedule| - 1;
      QuietKeepsList(backends, healthy, schedule[..n], limit, maxCost);
      QuietRunKeeps(backends, healthy, schedule[..n], limit, maxCost);
      var s := Exec(Fresh(backends, healthy), schedule[..n]);
      if schedule[n].Step? && schedule[n].t < |s.threads| {
        AdvanceKeeps(s, schedule[n].t);
      }
    }
  }

  /** least_pending charges 1 per Select: loads differ by at most the number in flight. */
  lemma LeastPendingImbalanceBound(backends: seq<nat>, healthy: set<nat>, schedule: seq<Action>,
                                   limit: nat, b: nat, d: nat)
    requires forall a :: a in schedule && a.Spawn? ==> a.estimated == 1
    requires QuietRun(Fresh(backends, healthy), schedule, limit, 1)
    requires b in backends && b in healthy && d in backends && d in healthy
    ensures var s := Exec(Fresh(backends, healthy), schedule);
            && b in s.book.loads && d in s.book.loads
            && Value(s.book, s.book.loads[b]) <= Value(s.book, s.book.loads[d]) + limit
            && Value(s.book, s.book.loads[d]) <= Value(s.book, s.book.loads[b]) + limit
  {
    WeightedImbalanceBound(backends, healthy, schedule, limit, 1, b, d);
    WeightedImbalanceBound(backends, healthy, schedule, limit, 1, d, b);
  }
}
