/** What the step machine promises over every schedule: account conservation, the effect of
    republishing on it, what a decision was based on, and health safety. */
module SelectTheorems {
  import opened Sums
  import opened Ring
  import opened SelectMachine

  // ----- Conservation --------------------------------------------------------------------

  /** In every reachable state every counter holds exactly the cost of the decisions that were
      charged to it and have not been subtracted, so it is never negative, and it is zero once
      none is left. Releases may be repeated and interleaved at will. */
  lemma CountersHoldOutstandingCost(backends: seq<nat>, healthy: set<nat>, schedule: seq<Action>)
    ensures var s := Exec(Fresh(backends, healthy), schedule);
            forall c :: c in s.book.values ==>
              && s.book.values[c] == Sum(s.threads, OwedTo(c))
              && 0 <= s.book.values[c]
              && (s.book.values[c] == 0 <==>
                    forall th :: th in s.threads && th.Decided? && th.counter == c ==> th.phase.Released?)
  {
    FreshInv(backends, healthy);
    ExecKeeps(Fresh(backends, healthy), schedule);
    var s := Exec(Fresh(backends, healthy), schedule);
    forall c | c in s.book.values
      ensures 0 <= s.book.values[c]
      ensures s.book.values[c] == 0 <==>
              forall th :: th in s.threads && th.Decided? && th.counter == c ==> th.phase.Released?
    {
      SumNonNegative(s.threads, OwedTo(c));
      SumZeroIff(s.threads, OwedTo(c));
      forall th | th in s.threads && th.Decided? && th.counter == c
        ensures OwedTo(c)(th) == 0 <==> th.phase.Released?
      {
        assert ThreadOk(s.book.values, th);
      }
      if forall th :: th in s.threads && th.Decided? && th.counter == c ==> th.phase.Released? {
        assert forall th :: th in s.threads ==> OwedTo(c)(th) == 0;
      }
    }
  }

  // ----- Giving back ---------------------------------------------------------------------

  /** Releasing a decision, both halves: it is given back, its counter is lower by its cost, and
      nothing else has moved. */
  lemma ReleaseGivesBack(s: State, t: nat)
    requires Inv(s) && t < |s.threads| && s.threads[t].Decided? && s.threads[t].phase.Live?
    ensures var th := s.threads[t];
            var r := Apply(Apply(s, Release(t)), Subtract(t));
            && th.counter in s.book.values && r.book.values.Keys == s.book.values.Keys
            && r.book.values[th.counter] == s.book.values[th.counter] - th.cost
            && (forall c :: c in s.book.values && c != th.counter ==> r.book.values[c] == s.book.values[c])
            && (r.book.backends, r.book.loads, r.book.next) == (s.book.backends, s.book.loads, s.book.next)
            && (r.epoch, r.healthy) == (s.epoch, s.healthy)
            && |r.threads| == |s.threads| && r.threads[t] == th.(phase := Released)
            && forall u :: 0 <= u < |s.threads| && u != t ==> r.threads[u] == s.threads[u]
  {
    assert ThreadOk(s.book.values, s.threads[t]);
  }

  /** A second release does nothing. */
  lemma ReleaseAgain(s: State, t: nat)
    requires t < |s.threads| && s.threads[t].Decided?
    ensures !s.threads[t].phase.Live? ==> Apply(s, Release(t)) == s
    ensures s.threads[t].phase.Released? ==> Apply(s, Subtract(t)) == s
  {
  }

  predicate Finished(th: Thread)
  {
    th.Decided? || th.Turned?
  }

  predicate AtLeastReleasing(th: Thread)
  {
    th.Decided? ==> !th.phase.Live?
  }

  predicate GivenBack(th: Thread)
  {
    th.Decided? ==> th.phase.Released?
  }

  lemma FinishedStays(s: State, a: Action, t: nat)
    requires t < |s.threads| && Finished(s.threads[t])
    ensures var s' := Apply(s, a);
            && t < |s'.threads| && Finished(s'.threads[t])
            && (AtLeastReleasing(s.threads[t]) || a == Release(t) ==> AtLeastReleasing(s'.threads[t]))
            && (GivenBack(s.threads[t]) || (AtLeastReleasing(s.threads[t]) && a == Subtract(t)) ==>
                  GivenBack(s'.threads[t]))
  {
  }

  /** A finished Select that is released and, later, subtracted has given back, whatever else is
      scheduled and however often. */
  lemma {:induction false} ReleasedIsGivenBack(s: State, schedule: seq<Action>, t: nat)
    requires t < |s.threads| && Finished(s.threads[t])
    ensures var s' := Exec(s, schedule);
            && t < |s'.threads| && Finished(s'.threads[t])
            && (Release(t) in schedule ==> AtLeastReleasing(s'.threads[t]))
            && ((exists i, j :: 0 <= i < j < |schedule| && schedule[i] == Release(t) && schedule[j] == Subtract(t)) ==>
                  GivenBack(s'.threads[t]))
  {
    if schedule != [] {
      var n := |schedule| - 1;
      assert schedule == schedule[..n] + [schedule[n]];
      ReleasedIsGivenBack(s, schedule[..n], t);
      FinishedStays(Exec(s, schedule[..n]), schedule[n], t);
      if i, j :| 0 <= i < j < |schedule| && schedule[i] == Release(t) && schedule[j] == Subtract(t) {
        assert schedule[..n][i] == Release(t);
        assert j < n ==> schedule[..n][j] == Subtract(t);
      }
    }
  }

  lemma {:induction false} NobodyStarts(s: State, schedule: seq<Action>)
    requires forall a :: a in schedule ==> !a.Spawn?
    ensures |Exec(s, schedule).threads| == |s.threads|
  {
    if schedule != [] {
      var n := |schedule| - 1;
      assert forall a :: a in schedule[..n] ==> a in schedule;
      NobodyStarts(s, schedule[..n]);
      assert schedule[n] in schedule;
    }
  }

  /** From any reachable state in which every Select has finished: once each decision has been
      released and subtracted, in any order, however often, and whatever is published or marked in
      between, every counter of the instance is at zero. */
  lemma AllGivenBack(backends: seq<nat>, healthy: set<nat>, before: seq<Action>, schedule: seq<Action>, c: CounterId)
    requires forall th :: th in Exec(Fresh(backends, healthy), before).threads ==> Finished(th)
    requires forall a :: a in schedule ==> !a.Spawn?
    requires forall t :: 0 <= t < |Exec(Fresh(backends, healthy), before).threads| ==>
               exists i, j :: 0 <= i < j < |schedule| && schedule[i] == Release(t) && schedule[j] == Subtract(t)
    ensures var r := Exec(Exec(Fresh(backends, healthy), before), schedule);
            c in r.book.values ==> r.book.values[c] == 0
  {
    FreshInv(backends, healthy);
    ExecKeeps(Fresh(backends, healthy), before);
    var s := Exec(Fresh(backends, healthy), before);
    ExecKeeps(s, schedule);
    NobodyStarts(s, schedule);
    var r := Exec(s, schedule);
    forall th | th in r.threads ensures OwedTo(c)(th) == 0 {
      var t :| 0 <= t < |r.threads| && r.threads[t] == th;
      ReleasedIsGivenBack(s, schedule, t);
    }
    SumZeroIff(r.threads, OwedTo(c));
  }

  /** Marking sets the health of one backend and moves nothing else. */
  lemma MarkSetsHealth(s: State, b: nat, up: bool, d: nat)
    ensures var r := Apply(s, SetHealthy(b, up));
            && (d in r.healthy <==> if d == b then up else d in s.healthy)
            && (r.book, r.epoch, r.threads) == (s.book, s.epoch, s.threads)
  {
  }

  // ----- Republishing --------------------------------------------------------------------

  /** What decisions for backend b are still owed, on whichever counter they were charged. */
  function OutstandingOn(b: nat): Thread -> int
  {
    (th: Thread) => if th.Decided? && !th.phase.Released? && th.backend == b then th.cost else 0
  }

  function StaleOn(b: nat, live: CounterId): Thread -> int
  {
    (th: Thread) =>
      if th.Decided? && !th.phase.Released? && th.backend == b && th.counter != live then th.cost else 0
  }

  /** A decision for b that was charged to another counter than `live`. */
  predicate ChargedElsewhere(th: Thread, b: nat, live: CounterId)
  {
    th.Decided? && th.backend == b && th.counter != live
  }

  /** The live counter of a listed backend accounts for all its outstanding work. */
  ghost predicate Whole(s: State, b: nat)
    requires b in s.book.loads
  {
    Value(s.book, s.book.loads[b]) == Sum(s.threads, OutstandingOn(b))
  }

  /** That is so exactly when no work charged to another counter of b is still owed. */
  lemma WholeIff(s: State, b: nat)
    requires Inv(s) && b in s.book.loads
    ensures Whole(s, b) <==>
            forall th :: th in s.threads && ChargedElsewhere(th, b, s.book.loads[b]) ==> th.phase.Released?
  {
    var live := s.book.loads[b];
    forall th | th in s.threads
      ensures OutstandingOn(b)(th) == OwedTo(live)(th) + StaleOn(b, live)(th)
      ensures 0 <= StaleOn(b, live)(th)
      ensures ChargedElsewhere(th, b, live) ==> (StaleOn(b, live)(th) == 0 <==> th.phase.Released?)
    {
      assert ThreadOk(s.book.values, th);
    }
    SumPlus(s.threads, OwedTo(live), StaleOn(b, live), OutstandingOn(b));
    SumZeroIff(s.threads, StaleOn(b, live));
    if forall th :: th in s.threads && ChargedElsewhere(th, b, live) ==> th.phase.Released? {
      assert forall th :: th in s.threads ==> StaleOn(b, live)(th) == 0;
    }
  }

  /** What publishing a list with b does to b's account, read off before the call: a listed
      backend keeps the account it has; one that is not listed gets a whole account exactly when
      every decision for it has been given back. */
  lemma PublishedAccountIff(s: State, backends: seq<nat>, b: nat)
    requires Inv(s) && b in backends
    ensures b in Apply(s, Publish(backends)).book.loads
    ensures Whole(Apply(s, Publish(backends)), b) <==>
            if b in s.book.loads then Whole(s, b)
            else forall th :: th in s.threads && th.Decided? && th.backend == b ==> th.phase.Released?
  {
    var s' := Apply(s, Publish(backends));
    ApplyKeeps(s, Publish(backends));
    WholeIff(s', b);
    if b in s.book.loads {
      WholeIff(s, b);
    } else {
      forall th | th in s.threads && th.Decided? && th.backend == b ensures th.counter != s'.book.loads[b] {
        assert ThreadOk(s.book.values, th);
      }
    }
  }

  /** Nothing that this Select may still charge, or is still to give back, for b is on another
      counter than c: its snapshot and its decision name c, unless the decision was given back. */
  ghost predicate AtHome(th: Thread, b: nat, c: CounterId)
  {
    match th
    case Arrived(_, _) => true
    case Probing(snap, _, _, _) => b in snap.loads ==> snap.loads[b] == c
    case Matched(snap, _, _, _) => b in snap.loads ==> snap.loads[b] == c
    case Ticketing(snap, _) => b in snap.loads ==> snap.loads[b] == c
    case Scanning(snap, _, _, _, _, _) => b in snap.loads ==> snap.loads[b] == c
    case Turned => true
    case Decided(_, backend, counter, _, _, phase) => backend == b && counter != c ==> phase.Released?
  }

  ghost predicate AllAtHome(s: State, b: nat, c: CounterId)
  {
    && b in s.book.loads && s.book.loads[b] == c
    && forall th :: th in s.threads ==> AtHome(th, b, c)
  }

  /** The Select is at its Add, and about to charge b on another counter than c: the one its
      older snapshot gave it. */
  predicate AddsElsewhere(th: Thread, b: nat, c: CounterId)
  {
    || (th.Matched? && th.backend == b && th.counter != c)
    || (th.Scanning? && |th.seen| >= |th.snap.backends| && th.best.Some?
        && th.best.value.backend == b && th.best.value.counter != c)
  }

  /** The steps of Selects in flight that break a whole account are exactly these Adds. */
  lemma StepBreaksAccountIff(s: State, t: nat, b: nat)
    requires Inv(s) && t < |s.threads| && b in s.book.loads && Whole(s, b)
    ensures Apply(s, Step(t)).book.loads == s.book.loads
    ensures !Whole(Apply(s, Step(t)), b) <==> AddsElsewhere(s.threads[t], b, s.book.loads[b])
  {
    var s', c := Apply(s, Step(t)), s.book.loads[b];
    AdvanceKeeps(s, t);
    ApplyKeeps(s, Step(t));
    WholeIff(s, b);
    WholeIff(s', b);
    assert ThreadOk(s.book.values, s.threads[t]);
    if AddsElsewhere(s.threads[t], b, c) {
      assert ChargedElsewhere(s'.threads[t], b, c) && s'.threads[t] in s'.threads;
    } else {
      forall th | th in s'.threads && ChargedElsewhere(th, b, c) ensures th.phase.Released? {
        assert th in s.threads || th == s'.threads[t];
        assert s.threads[t] in s.threads;
      }
    }
  }

  /** And no start of a Select, half of a release or health change breaks it. */
  lemma OthersKeepAccount(s: State, a: Action, b: nat)
    requires Inv(s) && b in s.book.loads && Whole(s, b)
    requires a.Spawn? || a.Release? || a.Subtract? || a.SetHealthy?
    ensures Apply(s, a).book.loads == s.book.loads && Whole(Apply(s, a), b)
  {
    ApplyKeeps(s, a);
    WholeIff(s, b);
    GivenBackStay(s, a, b, s.book.loads[b]);
    WholeIff(Apply(s, a), b);
  }

  /** Decisions charged elsewhere stay given back under everything but a step. */
  lemma GivenBackStay(s: State, a: Action, b: nat, c: CounterId)
    requires forall th :: th in s.threads && ChargedElsewhere(th, b, c) ==> th.phase.Released?
    requires !a.Step?
    ensures forall th :: th in Apply(s, a).threads && ChargedElsewhere(th, b, c) ==> th.phase.Released?
  {
    var s' := Apply(s, a);
    forall th | th in s'.threads && ChargedElsewhere(th, b, c) ensures th.phase.Released? {
      var i :| 0 <= i < |s'.threads| && s'.threads[i] == th;
      assert i < |s.threads| ==> s.threads[i] in s.threads;
    }
  }

  lemma AdvanceAtHome(s: State, t: nat, b: nat, c: CounterId)
    requires Inv(s) && AllAtHome(s, b, c) && t < |s.threads|
    ensures var (book, th) := Advance(s.book, s.healthy, s.threads[t]);
            book.loads == s.book.loads && AtHome(th, b, c)
  {
    assert ThreadOk(s.book.values, s.threads[t]);
    assert AtHome(s.threads[t], b, c);
  }

  lemma AtHomeStep(s: State, a: Action, b: nat, c: CounterId)
    requires Inv(s) && AllAtHome(s, b, c)
    requires a.Publish? ==> b in a.backends
    ensures AllAtHome(Apply(s, a), b, c)
  {
    var s' := Apply(s, a);
    if a.Step? && a.t < |s.threads| {
      AdvanceAtHome(s, a.t, b, c);
    }
    forall th | th in s'.threads ensures AtHome(th, b, c) {
      var i :| 0 <= i < |s'.threads| && s'.threads[i] == th;
      if i < |s.threads| {
        assert AtHome(s.threads[i], b, c);
      }
    }
  }

  /** While all are at home the account is whole, and it stays so over every schedule that keeps
      b listed, however Selects and releases straddle the publications. */
  lemma {:induction false} AccountStaysWhole(s: State, schedule: seq<Action>, b: nat, c: CounterId)
    requires Inv(s) && AllAtHome(s, b, c)
    requires forall a :: a in schedule && a.Publish? ==> b in a.backends
    ensures Inv(Exec(s, schedule)) && AllAtHome(Exec(s, schedule), b, c) && Whole(Exec(s, schedule), b)
  {
    if schedule == [] {
      WholeIff(s, b);
    } else {
      var n := |schedule| - 1;
      var r := Exec(s, schedule[..n]);
      assert forall a :: a in schedule[..n] ==> a in schedule;
      AccountStaysWhole(s, schedule[..n], b, c);
      AtHomeStep(r, schedule[n], b, c);
      ApplyKeeps(r, schedule[n]);
      WholeIff(Apply(r, schedule[n]), b);
    }
  }

  /** Whether publishing a list with b leaves all at home, read off before the call: if b is
      listed they must be already; if not, everything decided for it must have been given back
      and no Select in flight may hold a snapshot with b in it. */
  lemma PublishedAtHomeIff(s: State, backends: seq<nat>, b: nat)
    requires Inv(s) && b in backends
    ensures var s' := Apply(s, Publish(backends));
            && b in s'.book.loads
            && (AllAtHome(s', b, s'.book.loads[b]) <==>
                  if b in s.book.loads then AllAtHome(s, b, s.book.loads[b])
                  else forall th :: th in s.threads ==> ForgetsAll(th, b))
  {
    var s' := Apply(s, Publish(backends));
    if b !in s.book.loads {
      forall th | th in s.threads ensures AtHome(th, b, s'.book.loads[b]) <==> ForgetsAll(th, b) {
        assert ThreadOk(s.book.values, th);
      }
    }
  }

  /** The Select has nothing to do with b any more. */
  ghost predicate ForgetsAll(th: Thread, b: nat)
  {
    match th
    case Arrived(_, _) => true
    case Probing(snap, _, _, _) => b !in snap.backends
    case Matched(snap, _, _, _) => b !in snap.backends
    case Ticketing(snap, _) => b !in snap.backends
    case Scanning(snap, _, _, _, _, _) => b !in snap.backends
    case Turned => true
    case Decided(_, backend, _, _, _, phase) => backend == b ==> phase.Released?
  }

  /** Over whole runs: the live counter of a listed backend accounts for all its outstanding work
      exactly when none of that work was charged to a counter retired by an earlier removal of
      the backend. */
  lemma LiveCounterIsWholeAccountIff(backends: seq<nat>, healthy: set<nat>, schedule: seq<Action>, b: nat)
    ensures var s := Exec(Fresh(backends, healthy), schedule);
            b in s.book.loads ==>
              && s.book.loads[b] in s.book.values
              && (s.book.values[s.book.loads[b]] == Sum(s.threads, OutstandingOn(b)) <==>
                    forall th :: th in s.threads && ChargedElsewhere(th, b, s.book.loads[b]) ==> th.phase.Released?)
  {
    FreshInv(backends, healthy);
    ExecKeeps(Fresh(backends, healthy), schedule);
    if b in Exec(Fresh(backends, healthy), schedule).book.loads {
      WholeIff(Exec(Fresh(backends, healthy), schedule), b);
    }
  }

  /** Backend b is in the first list and in every list the schedule publishes. */
  predicate AlwaysListed(backends: seq<nat>, schedule: seq<Action>, b: nat)
  {
    b in backends && forall a :: a in schedule && a.Publish? ==> b in a.backends
  }

  /** At home, with every decision for b on c, given back or not. */
  ghost predicate Pinned(th: Thread, b: nat, c: CounterId)
  {
    AtHome(th, b, c) && (th.Decided? && th.backend == b ==> th.counter == c)
  }

  ghost predicate AllPinned(s: State, b: nat, c: CounterId)
  {
    AllAtHome(s, b, c) && forall th :: th in s.threads ==> Pinned(th, b, c)
  }

  lemma PinnedStep(s: State, a: Action, b: nat, c: CounterId)
    requires Inv(s) && AllPinned(s, b, c)
    requires a.Publish? ==> b in a.backends
    ensures AllPinned(Apply(s, a), b, c)
  {
    var s' := Apply(s, a);
    AtHomeStep(s, a, b, c);
    if a.Step? && a.t < |s.threads| {
      assert ThreadOk(s.book.values, s.threads[a.t]) && Pinned(s.threads[a.t], b, c);
    }
    forall th | th in s'.threads ensures Pinned(th, b, c) {
      var i :| 0 <= i < |s'.threads| && s'.threads[i] == th;
      if i < |s.threads| {
        assert Pinned(s.threads[i], b, c);
      }
    }
  }

  lemma {:induction false} RetainedCounterStays(backends: seq<nat>, healthy: set<nat>, schedule: seq<Action>, b: nat)
    requires AlwaysListed(backends, schedule, b)
    ensures AllPinned(Exec(Fresh(backends, healthy), schedule), b, CounterId(b, 0))
  {
    if schedule != [] {
      var n := |schedule| - 1;
      assert forall a :: a in schedule[..n] ==> a in schedule;
      RetainedCounterStays(backends, healthy, schedule[..n], b);
      FreshInv(backends, healthy);
      ExecKeeps(Fresh(backends, healthy), schedule[..n]);
      PinnedStep(Exec(Fresh(backends, healthy), schedule[..n]), schedule[n], b, CounterId(b, 0));
    }
  }

  /** Publishing lists that keep b never costs b its account: however Selects and Releases
      straddle the publications, its one counter equals its outstanding cost. */
  lemma RetainedBackendKeepsItsAccount(backends: seq<nat>, healthy: set<nat>, schedule: seq<Action>, b: nat)
    requires AlwaysListed(backends, schedule, b)
    ensures var s := Exec(Fresh(backends, healthy), schedule);
            && b in s.book.loads && s.book.loads[b] == Fresh(backends, healthy).book.loads[b]
            && s.book.loads[b] in s.book.values
            && s.book.values[s.book.loads[b]] == Sum(s.threads, OutstandingOn(b))
  {
    FreshInv(backends, healthy);
    AccountStaysWhole(Fresh(backends, healthy), schedule, b, CounterId(b, 0));
    assert SnapshotOk(Exec(Fresh(backends, healthy), schedule).book.values,
                      Snapshot(Exec(Fresh(backends, healthy), schedule).book.backends,
                               Exec(Fresh(backends, healthy), schedule).book.loads));
  }

  // ----- What a decision rests on --------------------------------------------------------

  /** A thread's next access to its snapshot's map always finds a counter: the branches for a
      missing one are never taken. */
  lemma MissingCounterBranchesAreDead(backends: seq<nat>, healthy: set<nat>, schedule: seq<Action>, t: nat)
    ensures var s := Exec(Fresh(backends, healthy), schedule);
            t < |s.threads| ==>
              var th := s.threads[t];
              && (th.Probing? && th.i < |th.snap.backends| ==> th.snap.backends[th.i] in th.snap.loads)
              && (th.Scanning? && |th.seen| < |th.snap.backends| ==>
                    th.snap.backends[At(th.start, |th.seen|, |th.snap.backends|)] in th.snap.loads)
  {
    FreshInv(backends, healthy);
    ExecKeeps(Fresh(backends, healthy), schedule);
    var s := Exec(Fresh(backends, healthy), schedule);
    if t < |s.threads| {
      assert ThreadOk(s.book.values, s.threads[t]);
    }
  }

  /** Every decision reached by a scan names the backend, from the Select's own snapshot, whose
      reading was the least among those the scan made, the earliest in scan order among equals;
      its counter is the one the snapshot gives for it. */
  lemma DecisionIsFirstLeastSeen(backends: seq<nat>, healthy: set<nat>, schedule: seq<Action>, t: nat)
    ensures var s := Exec(Fresh(backends, healthy), schedule);
            t < |s.threads| && s.threads[t].Decided? && s.threads[t].origin.Scanning? ==>
              var th := s.threads[t];
              var snap := th.origin.snap;
              && |th.origin.seen| == |snap.backends|
              && th.backend in snap.loads && th.counter == snap.loads[th.backend]
              && exists j :: 0 <= j < |snap.backends| && IsFirstLeast(th.origin.seen, j)
                             && th.backend == snap.backends[At(th.origin.start, j, |snap.backends|)]
  {
    FreshInv(backends, healthy);
    ExecKeeps(Fresh(backends, healthy), schedule);
    var s := Exec(Fresh(backends, healthy), schedule);
    if t < |s.threads| && s.threads[t].Decided? && s.threads[t].origin.Scanning? {
      var o := s.threads[t].origin;
      assert ThreadOk(s.book.values, s.threads[t]);
      assert ThreadOk(s.book.values, o) && CandidateOk(o);
      BestIsFirstLeast(o.seen);
      assert IsFirstLeast(o.seen, Best(o.seen).value);
    }
  }

  // ----- Health safety -------------------------------------------------------------------

  /** The Select has not settled on b, nor seen b healthy where it is scanning now. */
  predicate Avoids(th: Thread, b: nat)
  {
    match th
    case Matched(_, _, backend, _) => backend != b
    case Scanning(snap, _, start, seen, up, best) =>
      && (best.Some? ==> best.value.backend != b)
      && (up && |seen| < |snap.backends| ==> snap.backends[At(start, |seen|, |snap.backends|)] != b)
    case Decided(_, backend, _, _, _, _) => backend != b
    case _ => true
  }

  lemma AvoidsStep(s: State, a: Action, b: nat, t: nat)
    requires b !in s.healthy && a != SetHealthy(b, true)
    requires t < |s.threads| ==> Avoids(s.threads[t], b)
    ensures var s' := Apply(s, a);
            b !in s'.healthy && |s.threads| <= |s'.threads| && (t < |s'.threads| ==> Avoids(s'.threads[t], b))
  {
  }

  /** From a state where b is unhealthy, until something marks it healthy again, no Select that
      starts after that state ever returns b, whatever else happens. */
  lemma {:induction false} UnhealthyIsNeverReturned(s: State, schedule: seq<Action>, b: nat, t: nat)
    requires b !in s.healthy
    requires forall a :: a in schedule ==> a != SetHealthy(b, true)
    requires |s.threads| <= t
    ensures var s' := Exec(s, schedule);
            && b !in s'.healthy && |s.threads| <= |s'.threads|
            && (t < |s'.threads| ==> Avoids(s'.threads[t], b))
  {
    if schedule != [] {
      var n := |schedule| - 1;
      assert forall a :: a in schedule[..n] ==> a in schedule;
      UnhealthyIsNeverReturned(s, schedule[..n], b, t);
      assert schedule[n] in schedule;
      AvoidsStep(Exec(s, schedule[..n]), schedule[n], b, t);
    }
  }

  /** The Select's next step reads the health of b. */
  predicate ReadsHealth(th: Thread, b: nat)
  {
    || (th.Probing? && th.i < |th.snap.backends| && th.snap.backends[th.i] == b)
    || (th.Scanning? && !th.up && |th.seen| < |th.snap.backends|
        && th.snap.backends[At(th.start, |th.seen|, |th.snap.backends|)] == b)
  }

  /** Step n of the schedule is one at which Select t reads b and finds it healthy. */
  predicate ReadsUpAt(s: State, schedule: seq<Action>, n: nat, t: nat, b: nat)
  {
    && n < |schedule| && schedule[n] == Step(t)
    && var r := Exec(s, schedule[..n]);
       t < |r.threads| && ReadsHealth(r.threads[t], b) && b in r.healthy
  }

  /** Whatever a Select that starts after state s holds or returns, it has itself read healthy at
      one of its own steps since. */
  lemma {:induction false} ReturnedWasReadHealthy(s: State, schedule: seq<Action>, t: nat, b: nat)
    requires |s.threads| <= t
    ensures var s' := Exec(s, schedule);
            t < |s'.threads| && !Avoids(s'.threads[t], b) ==> exists n: nat :: ReadsUpAt(s, schedule, n, t, b)
  {
    if schedule != [] {
      var n := |schedule| - 1;
      var r, s' := Exec(s, schedule[..n]), Exec(s, schedule);
      ReturnedWasReadHealthy(s, schedule[..n], t, b);
      if t < |s'.threads| && !Avoids(s'.threads[t], b) {
        if t < |r.threads| && !Avoids(r.threads[t], b) {
          var m: nat :| ReadsUpAt(s, schedule[..n], m, t, b);
          assert schedule[..n][..m] == schedule[..m];
          assert ReadsUpAt(s, schedule, m, t, b);
        } else {
          assert ReadsUpAt(s, schedule, n, t, b);
        }
      }
    }
  }

  // ----- Where the per-backend account fails ---------------------------------------------

  lemma ExecSnoc(s: State, schedule: seq<Action>, a: Action)
    ensures Exec(s, schedule + [a]) == Apply(Exec(s, schedule), a)
  {
    assert (schedule + [a])[..|schedule|] == schedule;
  }

  lemma Relist(s: State, b: nat, t: nat)
    requires Inv(s)
    requires t < |s.threads| && s.threads[t].Decided? && s.threads[t].backend == b && !s.threads[t].phase.Released?
    ensures var r := Apply(Apply(s, Publish([])), Publish([b]));
            && b in r.book.loads && r.book.loads[b] in r.book.values
            && r.book.values[r.book.loads[b]] == 0
            && Sum(r.threads, OutstandingOn(b)) > 0
  {
    assert Apply(s, Publish([])).book.loads == map[];
    SomeIsOutstanding(s, b, t);
  }

  lemma SomeIsOutstanding(s: State, b: nat, t: nat)
    requires Inv(s)
    requires t < |s.threads| && s.threads[t].Decided? && s.threads[t].backend == b && !s.threads[t].phase.Released?
    ensures Sum(s.threads, OutstandingOn(b)) > 0
  {
    assert forall th :: th in s.threads ==> 0 <= OutstandingOn(b)(th);
    SumNonNegative(s.threads, OutstandingOn(b));
    SumZeroIff(s.threads, OutstandingOn(b));
    assert ThreadOk(s.book.values, s.threads[t]);
    assert OutstandingOn(b)(s.threads[t]) > 0;
  }

  /** Whenever a request is outstanding on b, unlisting and relisting b makes its live counter
      read 0 while the request is still outstanding. */
  lemma RelistingLosesTheAccount(backends: seq<nat>, healthy: set<nat>, schedule: seq<Action>, b: nat, t: nat)
    requires var s := Exec(Fresh(backends, healthy), schedule);
             t < |s.threads| && s.threads[t].Decided? && s.threads[t].backend == b && !s.threads[t].phase.Released?
    ensures var r := Exec(Fresh(backends, healthy), schedule + [Publish([])] + [Publish([b])]);
            && b in r.book.loads && r.book.loads[b] in r.book.values
            && r.book.values[r.book.loads[b]] == 0
            && Sum(r.threads, OutstandingOn(b)) > 0
  {
    var f := Fresh(backends, healthy);
    FreshInv(backends, healthy);
    ExecKeeps(f, schedule);
    ExecSnoc(f, schedule, Publish([]));
    ExecSnoc(f, schedule + [Publish([])], Publish([b]));
    Relist(Exec(f, schedule), b, t);
  }

  /** Such a state is reached by one undisturbed Select on a single healthy backend. */
  lemma OneSelectIsOutstanding() returns (schedule: seq<Action>)
    ensures var s := Exec(Fresh([0], {0}), schedule);
            && |s.threads| == 1 && s.threads[0].Decided? && s.threads[0].backend == 0
            && s.threads[0].phase.Live?
  {
    var f := Fresh([0], {0});
    var book, snap, ticketed := FirstSteps();
    schedule := [] + [Spawn(1, None)];
    ExecSnoc(f, [], Spawn(1, None));
    schedule := RunAlone(f, schedule, book, Arrived(1, None));
    schedule := RunAlone(f, schedule, book, Ticketing(snap, 1));
    schedule := RunAlone(f, schedule, ticketed, Scanning(snap, 1, 0, [], false, None));
    schedule := RunAlone(f, schedule, ticketed, Scanning(snap, 1, 0, [], true, None));
    schedule := RunAlone(f, schedule, ticketed,
                         Scanning(snap, 1, 0, [Some(0)], false, Some(Candidate(0, CounterId(0, 0), 0))));
  }

  /** The books of one backend, 0, whose counter is c. */
  ghost predicate Single(book: Ledger, snap: Snapshot, c: CounterId)
  {
    && book.backends == snap.backends == [0] && book.loads == snap.loads && book.next == 0
    && 0 in book.loads && book.loads[0] == c && c in book.values && book.values[c] == 0
  }

  lemma FirstSteps() returns (book: Ledger, snap: Snapshot, ticketed: Ledger)
    ensures Fresh([0], {0}) == State(book, 1, {0}, [])
    ensures Advance(book, {0}, Arrived(1, None)) == (book, Ticketing(snap, 1))
    ensures Advance(book, {0}, Ticketing(snap, 1)) == (ticketed, Scanning(snap, 1, 0, [], false, None))
    ensures Advance(ticketed, {0}, Scanning(snap, 1, 0, [], false, None))
            == (ticketed, Scanning(snap, 1, 0, [], true, None))
    ensures Advance(ticketed, {0}, Scanning(snap, 1, 0, [], true, None))
            == (ticketed, Scanning(snap, 1, 0, [Some(0)], false, Some(Candidate(0, CounterId(0, 0), 0))))
    ensures |snap.backends| == 1
  {
    var f := Fresh([0], {0});
    book := f.book;
    snap := Snapshot(book.backends, book.loads);
    ticketed := book.(next := 1);
    SingleReads(book, snap, CounterId(0, 0));
  }

  lemma SingleReads(book: Ledger, snap: Snapshot, c: CounterId)
    requires Single(book, snap, c)
    ensures var ticketed := book.(next := 1);
            && Advance(book, {0}, Ticketing(snap, 1)) == (ticketed, Scanning(snap, 1, 0, [], false, None))
            && Advance(ticketed, {0}, Scanning(snap, 1, 0, [], false, None))
               == (ticketed, Scanning(snap, 1, 0, [], true, None))
            && Advance(ticketed, {0}, Scanning(snap, 1, 0, [], true, None))
               == (ticketed, Scanning(snap, 1, 0, [Some(0)], false, Some(Candidate(0, c, 0))))
  {
    assert [] + [Some(0)] == [Some(0)];
  }

  lemma RunAlone(f: State, schedule: seq<Action>, book: Ledger, th: Thread) returns (longer: seq<Action>)
    requires Exec(f, schedule) == State(book, 1, {0}, [th])
    ensures var (book', th') := Advance(book, {0}, th);
            Exec(f, longer) == State(book', 1, {0}, [th'])
  {
    longer := schedule + [Step(0)];
    ExecSnoc(f, schedule, Step(0));
  }
}
