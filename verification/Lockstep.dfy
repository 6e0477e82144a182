/** The load-tracking strategies run side by side on the same calls, and the undisturbed Select
    as one run of the step machine. */
module Lockstep {
  import opened Sums
  import opened Ring
  import opened Books
  import opened SelectMachine
  import opened Iteration

  datatype Policy = LeastPending | CostAware | KVAware

  /** One undisturbed Select of each strategy. kv_aware takes a healthy affinity match without a
      ticket and otherwise falls back to the least loaded. */
  function SelectBy(policy: Policy, book: Ledger, healthy: set<nat>, estimated: int, hint: Option<nat>)
    : (Ledger, Grant<nat, CounterId>)
  {
    match policy
    case LeastPending => Select(book, healthy, 1)
    case CostAware => Select(book, healthy, EffectiveCost(estimated))
    case KVAware => SelectOr(book, healthy, AffinityMatch(book.backends, healthy, hint))
  }

  datatype Call =
    | Request(estimated: int, hint: Option<nat>)
    | GiveBack(d: nat)
    | Relist(backends: seq<nat>)
    | Mark(b: nat, up: bool)

  /** A decision as the caller holds it: its charge, and whether its latch has fired. */
  datatype Held = Held(counter: CounterId, cost: int, fired: bool)

  datatype Instance =
    Instance(book: Ledger, epoch: nat, healthy: set<nat>, held: seq<Held>, answers: seq<Grant<nat, CounterId>>)

  function CostBy(policy: Policy, estimated: int): int
  {
    if policy.CostAware? then EffectiveCost(estimated) else 1
  }

  function Perform(policy: Policy, i: Instance, c: Call): Instance
  {
    match c
    case Request(estimated, hint) =>
      var (book, g) := SelectBy(policy, i.book, i.healthy, estimated, hint);
      i.(book := book, answers := i.answers + [g],
         held := if g.Granted? then i.held + [Held(g.counter, CostBy(policy, estimated), false)] else i.held)
    case GiveBack(d) =>
      if d < |i.held| && !i.held[d].fired then
        var h := i.held[d];
        i.(held := i.held[d := h.(fired := true)],
           book := i.book.(values := i.book.values[h.counter := Value(i.book, h.counter) - h.cost]))
      else i
    case Relist(backends) => i.(book := Rebind(i.book, i.epoch, backends), epoch := i.epoch + 1)
    case Mark(b, up) => i.(healthy := if up then i.healthy + {b} else i.healthy - {b})
  }

  function PerformAll(policy: Policy, i: Instance, calls: seq<Call>): Instance
  {
    if calls == [] then i
    else Perform(policy, PerformAll(policy, i, calls[..|calls| - 1]), calls[|calls| - 1])
  }

  function NewInstance(backends: seq<nat>, healthy: set<nat>): Instance
  {
    Instance(Fresh(backends, healthy).book, 1, healthy, [], [])
  }

  /** cost_aware with no estimate above 1 is least_pending: same answers, same counters, for any
      sequence of Selects, Releases, list publications and health changes. */
  lemma {:induction false} CheapCostAwareIsLeastPending(backends: seq<nat>, healthy: set<nat>, calls: seq<Call>)
    requires forall c :: c in calls && c.Request? ==> c.estimated <= 1
    ensures PerformAll(CostAware, NewInstance(backends, healthy), calls)
            == PerformAll(LeastPending, NewInstance(backends, healthy), calls)
  {
    if calls != [] {
      var n := |calls| - 1;
      assert forall c :: c in calls[..n] ==> c in calls;
      CheapCostAwareIsLeastPending(backends, healthy, calls[..n]);
      assert calls[n] in calls;
    }
  }

  /** No lookup along the calls names a backend that is listed and healthy at that moment. */
  predicate NeverHits(i: Instance, calls: seq<Call>)
  {
    calls == [] ||
    (var n := |calls| - 1;
     var before := PerformAll(KVAware, i, calls[..n]);
     && NeverHits(i, calls[..n])
     && (calls[n].Request? ==> AffinityMatch(before.book.backends, before.healthy, calls[n].hint).None?))
  }

  /** kv_aware whose lookups never hit is least_pending. */
  lemma {:induction false} MissingKVAwareIsLeastPending(backends: seq<nat>, healthy: set<nat>, calls: seq<Call>)
    requires NeverHits(NewInstance(backends, healthy), calls)
    ensures PerformAll(KVAware, NewInstance(backends, healthy), calls)
            == PerformAll(LeastPending, NewInstance(backends, healthy), calls)
  {
    if calls != [] {
      var n := |calls| - 1;
      MissingKVAwareIsLeastPending(backends, healthy, calls[..n]);
      MissIsLeastPending(PerformAll(KVAware, NewInstance(backends, healthy), calls[..n]), calls[n]);
    }
  }

  lemma MissIsLeastPending(i: Instance, c: Call)
    requires c.Request? ==> AffinityMatch(i.book.backends, i.healthy, c.hint).None?
    ensures Perform(KVAware, i, c) == Perform(LeastPending, i, c)
  {
  }

  /** A kv_aware Select with an affinity name serves that very backend exactly when it is listed
      and healthy, and then takes no ticket and charges it one. */
  lemma AffinityServedIff(book: Ledger, healthy: set<nat>, estimated: int, hint: nat)
    requires WellFormed(book)
    ensures var (r, g) := SelectBy(KVAware, book, healthy, estimated, Some(hint));
            && (hint in book.backends && hint in healthy <==>
                  g.Granted? && g.backend == hint && r.next == book.next)
            && (hint in book.backends && hint in healthy ==>
                  r.values == book.values[book.loads[hint] := book.values[book.loads[hint]] + 1])
  {
    SelectServesLeastLoaded(book, healthy, 1);
  }

  // ----- An undisturbed thread is one Select ---------------------------------------------

  function StepOf(t: nat): State -> State
  {
    (s: State) => Apply(s, Step(t))
  }

  /** The steps of thread t alone, k of them. */
  function Alone(s: State, t: nat, k: nat): State
  {
    Iterate(StepOf(t), s, k)
  }

  /** Mid-scan and undisturbed on `book`: the thread has read a prefix of the view in ring
      order. */
  ghost predicate MidScan(s: State, t: nat, book: Ledger, healthy: set<nat>, cost: nat, start: nat, i: nat)
  {
    && Inv(s) && s.book == book && s.healthy == healthy && t < |s.threads|
    && book.backends != [] && start < |book.backends| && i <= |book.backends|
    && var th := s.threads[t];
       && th.Scanning? && !th.up && th.start == start && th.cost == cost
       && th.snap == Snapshot(book.backends, book.loads)
       && th.seen == Ordered(View(book, healthy), start)[..i]
  }

  lemma ReadUp(s: State, t: nat, book: Ledger, healthy: set<nat>, cost: nat, start: nat, i: nat)
    requires MidScan(s, t, book, healthy, cost, start, i) && i < |book.backends|
    ensures var b := book.backends[At(start, i, |book.backends|)];
            if b in healthy
            then MidScan(Apply(Apply(s, Step(t)), Step(t)), t, book, healthy, cost, start, i + 1)
            else MidScan(Apply(s, Step(t)), t, book, healthy, cost, start, i + 1)
  {
    var b := book.backends[At(start, i, |book.backends|)];
    var log := Ordered(View(book, healthy), start);
    assert ThreadOk(book.values, s.threads[t]);
    assert b in book.loads;
    assert log[..i + 1] == log[..i] + [log[i]];
    ApplyKeeps(s, Step(t));
    if b in healthy {
      ApplyKeeps(Apply(s, Step(t)), Step(t));
    }
  }

  ghost predicate MovesOn<S>(f: S -> S, p: (S, nat) -> bool, x: S, j: nat)
  {
    p(f(x), j + 1) || p(f(f(x)), j + 1)
  }

  /** Progress by one in one or two steps at a time reaches the end. */
  lemma {:induction false} IterateReaches<S(!new)>(f: S -> S, p: (S, nat) -> bool, s: S, i: nat, n: nat)
    returns (k: nat)
    requires i <= n && p(s, i)
    requires forall x, j: nat {:trigger MovesOn(f, p, x, j)} :: p(x, j) && j < n ==> MovesOn(f, p, x, j)
    ensures p(Iterate(f, s, k), n)
    decreases n - i
  {
    if i == n {
      k := 0;
    } else {
      assert MovesOn(f, p, s, i);
      var k1 := if p(f(s), i + 1) then 1 else 2;
      assert Iterate(f, s, 1) == f(s);
      assert Iterate(f, s, 2) == f(f(s));
      var k2 := IterateReaches(f, p, Iterate(f, s, k1), i + 1, n);
      IterateAdd(f, s, k1, k2);
      k := k1 + k2;
    }
  }

  ghost function MidScanAt(t: nat, book: Ledger, healthy: set<nat>, cost: nat, start: nat): (State, nat) -> bool
  {
    (s: State, i: nat) => MidScan(s, t, book, healthy, cost, start, i)
  }

  lemma ReadAll(s: State, t: nat, book: Ledger, healthy: set<nat>, cost: nat, start: nat) returns (k: nat)
    requires MidScan(s, t, book, healthy, cost, start, 0)
    ensures MidScan(Alone(s, t, k), t, book, healthy, cost, start, |book.backends|)
  {
    var p := MidScanAt(t, book, healthy, cost, start);
    forall x, j: nat {:trigger MovesOn(StepOf(t), p, x, j)} | p(x, j) && j < |book.backends|
      ensures MovesOn(StepOf(t), p, x, j)
    {
      ReadUp(x, t, book, healthy, cost, start, j);
    }
    k := IterateReaches(StepOf(t), p, s, 0, |book.backends|);
  }

  /** The thread's outcome is what the one-step Select grants. */
  predicate Settled(th: Thread, g: Grant<nat, CounterId>, cost: nat)
  {
    match g
    case Refused => th.Turned?
    case Granted(b, c, pending) =>
      && th.Decided? && th.phase.Live? && th.backend == b && th.counter == c
      && th.pending == pending && th.cost == cost
  }

  lemma FinishScan(s: State, t: nat, book: Ledger, before: Ledger, healthy: set<nat>, cost: nat)
    requires before.backends != [] && book == before.(next := before.next + 1)
    requires MidScan(s, t, book, healthy, cost, before.next % |before.backends|, |before.backends|)
    ensures var r := Apply(s, Step(t));
            var (after, g) := Select(before, healthy, cost);
            r.book == after && t < |r.threads| && Settled(r.threads[t], g, cost)
  {
    var th := s.threads[t];
    assert View(book, healthy) == View(before, healthy);
    var log := Ordered(View(book, healthy), th.start);
    assert log[..|log|] == log;
    assert ThreadOk(s.book.values, th) && CandidateOk(th);
  }

  lemma StartScan(s: State, t: nat, cost: nat)
    requires Inv(s) && s.book.backends != [] && Ticketed(s, t, cost)
    ensures var book := s.book.(next := s.book.next + 1);
            MidScan(Apply(s, Step(t)), t, book, s.healthy, cost, s.book.next % |s.book.backends|, 0)
  {
    ApplyKeeps(s, Step(t));
  }

  /** About to take a ticket, on the published list. */
  ghost predicate Ticketed(s: State, t: nat, cost: nat)
  {
    && t < |s.threads| && s.book.next < TICKET_LIMIT
    && s.threads[t].Ticketing? && s.threads[t].cost == cost
    && s.threads[t].snap == Snapshot(s.book.backends, s.book.loads)
  }

  lemma ScanAlone(s: State, t: nat, cost: nat) returns (k: nat)
    requires Inv(s) && s.book.backends != [] && Ticketed(s, t, cost)
    ensures var (book, g) := Select(s.book, s.healthy, cost);
            var r := Alone(s, t, k);
            r.book == book && t < |r.threads| && Settled(r.threads[t], g, cost)
  {
    var book := s.book.(next := s.book.next + 1);
    var s1 := Apply(s, Step(t));
    StartScan(s, t, cost);
    var k1 := ReadAll(s1, t, book, s.healthy, cost, s.book.next % |s.book.backends|);
    FinishScan(Alone(s1, t, k1), t, book, s.book, s.healthy, cost);
    k := StepLast(s1, t, k1);
    k := StepFirst(s, s1, t, k);
  }

  lemma StepLast(s: State, t: nat, k: nat) returns (l: nat)
    ensures Alone(s, t, l) == Apply(Alone(s, t, k), Step(t))
  {
    l := k + 1;
    assert Alone(s, t, l) == StepOf(t)(Alone(s, t, k));
  }

  lemma StepFirst(s: State, s1: State, t: nat, k: nat) returns (l: nat)
    requires s1 == Apply(s, Step(t))
    ensures Alone(s, t, l) == Alone(s1, t, k)
  {
    assert Alone(s, t, 1) == StepOf(t)(s);
    IterateAdd(StepOf(t), s, 1, k);
    l := 1 + k;
  }

  /** A least_pending or cost_aware Select that is not disturbed between its start and its Add is
      exactly the one-step Select of the account books: same books afterwards, same backend,
      counter and pending count, or the same refusal. */
  lemma UndisturbedSelect(s: State, t: nat, cost: nat) returns (k: nat)
    requires Inv(s) && t < |s.threads| && s.threads[t] == Arrived(cost, None) && s.book.next < TICKET_LIMIT
    ensures var (book, g) := Select(s.book, s.healthy, cost);
            var r := Alone(s, t, k);
            r.book == book && t < |r.threads| && Settled(r.threads[t], g, cost)
  {
    var s1 := Apply(s, Step(t));
    if s.book.backends == [] {
      k := 0;
    } else {
      ApplyKeeps(s, Step(t));
      k := ScanAlone(s1, t, cost);
    }
    k := StepFirst(s, s1, t, k);
  }

  /** Looking for the wanted name, and not among the first i backends as a healthy one. */
  ghost predicate Seeking(s: State, t: nat, wanted: nat, i: nat)
  {
    && t < |s.threads| && s.book.next < TICKET_LIMIT && i <= |s.book.backends|
    && s.threads[t].Probing? && s.threads[t].cost == 1 && s.threads[t].wanted == wanted && s.threads[t].i == i
    && s.threads[t].snap == Snapshot(s.book.backends, s.book.loads)
    && (wanted in s.healthy ==> wanted !in s.book.backends[..i])
  }

  lemma SeekOn(s: State, t: nat, wanted: nat, i: nat)
    requires Inv(s) && Seeking(s, t, wanted, i) && i < |s.book.backends|
    requires s.book.backends[i] != wanted || wanted !in s.healthy
    ensures var s1 := Apply(s, Step(t));
            Inv(s1) && s1.book == s.book && s1.healthy == s.healthy && Seeking(s1, t, wanted, i + 1)
  {
    ApplyKeeps(s, Step(t));
    assert s.book.backends[..i + 1] == s.book.backends[..i] + [s.book.backends[i]];
  }

  /** The match is found and charged. */
  lemma SeekFinds(s: State, t: nat, wanted: nat, i: nat)
    requires Inv(s) && Seeking(s, t, wanted, i) && i < |s.book.backends|
    requires s.book.backends[i] == wanted && wanted in s.healthy
    ensures var (book, g) := SelectBy(KVAware, s.book, s.healthy, 1, Some(wanted));
            var r := Apply(Apply(s, Step(t)), Step(t));
            r.book == book && t < |r.threads| && Settled(r.threads[t], g, 1)
  {
    assert ThreadOk(s.book.values, s.threads[t]);
  }

  lemma {:induction false} SeekAlone(s: State, t: nat, wanted: nat, i: nat) returns (k: nat)
    requires Inv(s) && s.book.backends != [] && Seeking(s, t, wanted, i)
    ensures var (book, g) := SelectBy(KVAware, s.book, s.healthy, 1, Some(wanted));
            var r := Alone(s, t, k);
            r.book == book && t < |r.threads| && Settled(r.threads[t], g, 1)
    decreases |s.book.backends| - i
  {
    var s1 := Apply(s, Step(t));
    if i == |s.book.backends| {
      ApplyKeeps(s, Step(t));
      assert s.book.backends[..i] == s.book.backends;
      k := ScanAlone(s1, t, 1);
    } else if s.book.backends[i] == wanted && wanted in s.healthy {
      SeekFinds(s, t, wanted, i);
      k := 1;
      assert Alone(s1, t, 1) == StepOf(t)(s1);
    } else {
      SeekOn(s, t, wanted, i);
      k := SeekAlone(s1, t, wanted, i + 1);
    }
    k := StepFirst(s, s1, t, k);
  }

  /** And a kv_aware Select that is not disturbed is exactly the one-step Select of kv_aware, with
      an affinity name or without. */
  lemma UndisturbedKVAwareSelect(s: State, t: nat, hint: Option<nat>) returns (k: nat)
    requires Inv(s) && t < |s.threads| && s.threads[t] == Arrived(1, hint) && s.book.next < TICKET_LIMIT
    ensures var (book, g) := SelectBy(KVAware, s.book, s.healthy, 1, hint);
            var r := Alone(s, t, k);
            r.book == book && t < |r.threads| && Settled(r.threads[t], g, 1)
  {
    if hint.None? {
      k := UndisturbedSelect(s, t, 1);
    } else {
      var s1 := Apply(s, Step(t));
      if s.book.backends == [] {
        k := 0;
      } else {
        ApplyKeeps(s, Step(t));
        k := SeekAlone(s1, t, hint.value, 0);
      }
      k := StepFirst(s, s1, t, k);
    }
  }
}
