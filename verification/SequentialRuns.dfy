/** The calls that one caller makes on an instance, one after another, as runs of the step machine:
    what is proved of every schedule holds of every sequence of Selects, releases, publications and
    health changes. */
module SequentialRuns {
  import opened Sums
  import opened Ring
  import opened Books
  import opened Iteration
  import opened SelectMachine
  import opened Lockstep

  function HeldBy(th: Thread): seq<Held>
  {
    if th.Decided? then [Held(th.counter, th.cost, th.phase.Released?)] else []
  }

  /** The decisions among the threads, in order, as their caller holds them. */
  function HeldOf(ts: seq<Thread>): seq<Held>
  {
    if ts == [] then [] else HeldOf(ts[..|ts| - 1]) + HeldBy(ts[|ts| - 1])
  }

  predicate AtRest(th: Thread)
  {
    th.Turned? || (th.Decided? && !th.phase.Releasing?)
  }

  /** The machine is between two calls, where the instance is. */
  ghost predicate Stands(s: State, i: Instance)
  {
    && Inv(s) && (s.book, s.epoch, s.healthy) == (i.book, i.epoch, i.healthy)
    && HeldOf(s.threads) == i.held && forall th :: th in s.threads ==> AtRest(th)
  }

  lemma HeldSnoc(ts: seq<Thread>, th: Thread)
    ensures HeldOf(ts + [th]) == HeldOf(ts) + HeldBy(th)
  {
    assert (ts + [th])[..|ts|] == ts;
  }

  /** The threads after thread u's decision has been given back. */
  function GivenBackBy(ts: seq<Thread>, u: nat): seq<Thread>
    requires u < |ts| && ts[u].Decided?
  {
    ts[u := ts[u].(phase := Released)]
  }

  lemma GivenBackEarlier(ts: seq<Thread>, th: Thread, u: nat)
    requires u < |ts| && ts[u].Decided?
    ensures HeldOf(GivenBackBy(ts + [th], u)) == HeldOf(GivenBackBy(ts, u)) + HeldBy(th)
  {
    assert GivenBackBy(ts + [th], u) == GivenBackBy(ts, u) + [th];
    HeldSnoc(GivenBackBy(ts, u), th);
  }

  lemma GivenBackLast(ts: seq<Thread>, th: Thread)
    requires th.Decided?
    ensures HeldOf(GivenBackBy(ts + [th], |ts|)) == HeldOf(ts) + [Held(th.counter, th.cost, true)]
  {
    assert GivenBackBy(ts + [th], |ts|) == ts + [th.(phase := Released)];
    HeldSnoc(ts, th.(phase := Released));
  }

  lemma UpdateEarlier<T>(xs: seq<T>, ys: seq<T>, d: nat, x: T)
    requires d < |xs|
    ensures (xs + ys)[d := x] == xs[d := x] + ys
  {
  }

  /** The thread that holds decision d, and what becomes of the decisions when it gives it back. */
  lemma {:induction false} HolderOf(ts: seq<Thread>, d: nat) returns (u: nat)
    requires d < |HeldOf(ts)|
    ensures u < |ts| && ts[u].Decided? && HeldBy(ts[u]) == [HeldOf(ts)[d]]
    ensures HeldOf(GivenBackBy(ts, u)) == HeldOf(ts)[d := HeldOf(ts)[d].(fired := true)]
  {
    var init, th := ts[..|ts| - 1], ts[|ts| - 1];
    assert ts == init + [th];
    HeldSnoc(init, th);
    if d < |HeldOf(init)| {
      u := HolderOf(init, d);
      GivenBackEarlier(init, th, u);
      UpdateEarlier(HeldOf(init), HeldBy(th), d, HeldOf(init)[d].(fired := true));
    } else {
      u := |init|;
      GivenBackLast(init, th);
    }
  }

  lemma {:induction false} AloneIsRun(s: State, t: nat, k: nat) returns (schedule: seq<Action>)
    requires t < |s.threads|
    ensures Exec(s, schedule) == Alone(s, t, k)
    ensures var r := Alone(s, t, k);
            && (r.epoch, r.healthy) == (s.epoch, s.healthy) && |r.threads| == |s.threads|
            && forall u :: 0 <= u < |s.threads| && u != t ==> r.threads[u] == s.threads[u]
  {
    if k == 0 {
      schedule := [];
    } else {
      var before := AloneIsRun(s, t, k - 1);
      schedule := before + [Step(t)];
      assert schedule[..|before|] == before;
    }
  }

  lemma RunAfter(s: State, a: Action, schedule: seq<Action>) returns (longer: seq<Action>)
    ensures Exec(s, longer) == Exec(Apply(s, a), schedule)
  {
    longer := [a] + schedule;
    ExecConcat(s, [a], schedule);
    ExecOne(s, a);
  }

  function SpawnFor(policy: Policy, estimated: int, hint: Option<nat>): Action
  {
    match policy
    case LeastPending => Spawn(1, None)
    case CostAware => Spawn(estimated, None)
    case KVAware => Spawn(1, hint)
  }

  /** The new Select's own run. */
  lemma SelectRuns(policy: Policy, s: State, estimated: int, hint: Option<nat>) returns (k: nat)
    requires Inv(s) && s.book.next < TICKET_LIMIT
    ensures var r := Alone(Apply(s, SpawnFor(policy, estimated, hint)), |s.threads|, k);
            var (book, g) := SelectBy(policy, s.book, s.healthy, estimated, hint);
            r.book == book && |s.threads| < |r.threads|
            && Settled(r.threads[|s.threads|], g, CostBy(policy, estimated))
  {
    var s0 := Apply(s, SpawnFor(policy, estimated, hint));
    ApplyKeeps(s, SpawnFor(policy, estimated, hint));
    if policy.KVAware? {
      k := UndisturbedKVAwareSelect(s0, |s.threads|, hint);
    } else {
      k := UndisturbedSelect(s0, |s.threads|, CostBy(policy, estimated));
    }
  }

  lemma SettledHeld(ts: seq<Thread>, th: Thread, g: Grant<nat, CounterId>, cost: nat, rest: seq<Thread>)
    requires Settled(th, g, cost) && |rest| == |ts| + 1 && rest[|ts|] == th
    requires forall u :: 0 <= u < |ts| ==> rest[u] == ts[u] && AtRest(ts[u])
    ensures HeldOf(rest) == HeldOf(ts) + if g.Granted? then [Held(g.counter, cost, false)] else []
    ensures forall x :: x in rest ==> AtRest(x)
  {
    assert rest == ts + [th];
    HeldSnoc(ts, th);
  }

  lemma RequestIsRun(policy: Policy, s: State, i: Instance, estimated: int, hint: Option<nat>)
    returns (schedule: seq<Action>)
    requires Stands(s, i) && s.book.next < TICKET_LIMIT
    ensures Stands(Exec(s, schedule), Perform(policy, i, Request(estimated, hint)))
  {
    var t, a := |s.threads|, SpawnFor(policy, estimated, hint);
    var k := SelectRuns(policy, s, estimated, hint);
    var alone := AloneIsRun(Apply(s, a), t, k);
    schedule := RunAfter(s, a, alone);
    ExecKeeps(s, schedule);
    var r := Exec(s, schedule);
    SettledHeld(s.threads, r.threads[t], SelectBy(policy, s.book, s.healthy, estimated, hint).1,
                CostBy(policy, estimated), r.threads);
  }

  lemma GiveBackIsRun(policy: Policy, s: State, i: Instance, d: nat) returns (schedule: seq<Action>)
    requires Stands(s, i)
    ensures Stands(Exec(s, schedule), Perform(policy, i, GiveBack(d)))
  {
    if d < |i.held| && !i.held[d].fired {
      var u := HolderOf(s.threads, d);
      assert AtRest(s.threads[u]) by {
        assert s.threads[u] in s.threads;
      }
      schedule := TwoActions(s, Release(u), Subtract(u));
      ExecKeeps(s, schedule);
      BothHalves(s, u);
      StandsAfter(policy, s, i, d, u, Exec(s, schedule));
    } else {
      schedule := [];
    }
  }

  lemma StandsAfter(policy: Policy, s: State, i: Instance, d: nat, u: nat, r: State)
    requires Stands(s, i) && d < |i.held| && !i.held[d].fired && Inv(r)
    requires u < |s.threads| && s.threads[u].Decided? && HeldBy(s.threads[u]) == [i.held[d]]
    requires HeldOf(GivenBackBy(s.threads, u)) == i.held[d := i.held[d].(fired := true)]
    requires var th := s.threads[u];
             r == s.(book := s.book.(values := s.book.values[th.counter := Value(s.book, th.counter) - th.cost]),
                     threads := GivenBackBy(s.threads, u))
    ensures Stands(r, Perform(policy, i, GiveBack(d)))
  {
    forall x | x in r.threads ensures AtRest(x) {
      assert x in s.threads || x == r.threads[u];
    }
  }

  lemma BothHalves(s: State, u: nat)
    requires u < |s.threads| && s.threads[u].Decided? && s.threads[u].phase.Live?
    ensures var th := s.threads[u];
            Apply(Apply(s, Release(u)), Subtract(u))
            == s.(book := s.book.(values := s.book.values[th.counter := Value(s.book, th.counter) - th.cost]),
                  threads := GivenBackBy(s.threads, u))
  {
    assert Apply(Apply(s, Release(u)), Subtract(u)).threads == GivenBackBy(s.threads, u);
  }

  lemma TwoActions(s: State, a: Action, b: Action) returns (schedule: seq<Action>)
    ensures Exec(s, schedule) == Apply(Apply(s, a), b)
  {
    schedule := RunAfter(s, a, [b]);
    ExecOne(Apply(s, a), b);
  }

  lemma OutsideIsRun(policy: Policy, s: State, i: Instance, c: Call) returns (schedule: seq<Action>)
    requires Stands(s, i) && (c.Relist? || c.Mark?)
    ensures Stands(Exec(s, schedule), Perform(policy, i, c))
  {
    var a := if c.Relist? then Publish(c.backends) else SetHealthy(c.b, c.up);
    schedule := [a];
    ExecOne(s, a);
    ApplyKeeps(s, a);
  }

  lemma TicketsOf(policy: Policy, i: Instance, c: Call)
    ensures Perform(policy, i, c).book.next <= i.book.next + 1
  {
  }

  /** Every call is a run of the machine: a Select is a thread that nobody disturbs, a release its
      two halves, a publication and a health change one step. */
  lemma CallIsRun(policy: Policy, s: State, i: Instance, c: Call) returns (schedule: seq<Action>)
    requires Stands(s, i) && s.book.next < TICKET_LIMIT
    ensures Stands(Exec(s, schedule), Perform(policy, i, c))
  {
    match c
    case Request(estimated, hint) => schedule := RequestIsRun(policy, s, i, estimated, hint);
    case GiveBack(d) => schedule := GiveBackIsRun(policy, s, i, d);
    case _ => schedule := OutsideIsRun(policy, s, i, c);
  }

  /** So whatever sequence of calls is made on a new instance of any of the three strategies, some
      schedule of the step machine ends with the same books, the same health, and the same
      decisions, given back or not. */
  lemma {:induction false} CallsAreRun(policy: Policy, backends: seq<nat>, healthy: set<nat>, calls: seq<Call>)
    returns (schedule: seq<Action>)
    requires |calls| < TICKET_LIMIT
    ensures Stands(Exec(Fresh(backends, healthy), schedule), PerformAll(policy, NewInstance(backends, healthy), calls))
    ensures Exec(Fresh(backends, healthy), schedule).book.next <= |calls|
  {
    var f := Fresh(backends, healthy);
    if calls == [] {
      FreshInv(backends, healthy);
      schedule := [];
    } else {
      var n := |calls| - 1;
      var before := CallsAreRun(policy, backends, healthy, calls[..n]);
      var i := PerformAll(policy, NewInstance(backends, healthy), calls[..n]);
      TicketsOf(policy, i, calls[n]);
      var last := CallIsRun(policy, Exec(f, before), i, calls[n]);
      schedule := before + last;
      ExecConcat(f, before, last);
    }
  }
}
