/** The exact distribution of round_robin: how often each position is chosen, as a function of
    the tickets alone, and then for every interleaving of concurrent Picks. */
module RoundRobinLaw {
  import opened Sums
  import opened Ring
  import opened Books
  import opened Iteration

  /** The position that a Pick holding `ticket` returns while health is fixed. */
  function Picked(health: seq<bool>, ticket: nat): Option<nat>
    requires health != []
  {
    FirstHealthy(health, ticket % |health|)
  }

  /** How many of the k tickets from `from` on are answered with position j. */
  function Answered(health: seq<bool>, from: nat, k: nat, j: nat): nat
    requires health != []
  {
    if k == 0 then 0
    else Answered(health, from, k - 1, j) + if Picked(health, from + k - 1) == Some(j) then 1 else 0
  }

  /** The position d places before j on the ring. */
  function Back(j: nat, d: nat, n: nat): (k: nat)
    requires j < n && d < n
    ensures k < n
  {
    if d <= j then j - d else j + n - d
  }

  /** The run of unhealthy positions cyclically just before j, of which d are known. */
  function GapFrom(health: seq<bool>, j: nat, d: nat): (g: nat)
    requires j < |health| && d < |health|
    ensures d <= g < |health|
    decreases |health| - d
  {
    if d + 1 < |health| && !health[Back(j, d + 1, |health|)] then GapFrom(health, j, d + 1) else d
  }

  function Gap(health: seq<bool>, j: nat): nat
    requires j < |health|
  {
    GapFrom(health, j, 0)
  }

  lemma {:induction false} GapFromIff(health: seq<bool>, j: nat, d: nat, e: nat)
    requires j < |health| && d <= e < |health|
    ensures e <= GapFrom(health, j, d) <==>
            forall i :: d < i <= e ==> !health[Back(j, i, |health|)]
    decreases e - d
  {
    if d < e && !health[Back(j, d + 1, |health|)] {
      GapFromIff(health, j, d + 1, e);
    }
  }

  lemma AtBack(j: nat, d: nat, i: nat, n: nat)
    requires j < n && d < n && i <= d
    ensures At(Back(j, d, n), i, n) == Back(j, d - i, n)
  {
    SmallMod(Back(j, d, n) + i, n);
  }

  /** A scan that starts d places before a healthy j ends at j exactly when it starts within the
      unhealthy run before j, or at j itself. */
  lemma StartBeforePicksIff(health: seq<bool>, j: nat, d: nat)
    requires j < |health| && d < |health| && health[j]
    ensures FirstHealthy(health, Back(j, d, |health|)) == Some(j) <==> d <= Gap(health, j)
  {
    var n := |health|;
    var start := Back(j, d, n);
    var seen := Ordered(health, start);
    FirstTrueCorrect(seen);
    GapFromIff(health, j, 0, d);
    AtBack(j, d, d, n);
    forall i | 0 <= i <= d ensures seen[i] == health[Back(j, d - i, n)] {
      AtBack(j, d, i, n);
    }
    if d <= Gap(health, j) {
      forall i | 0 <= i < d ensures !seen[i] {
        assert seen[i] == health[Back(j, d - i, n)];
      }
      assert IsFirstTrue(seen, d);
    } else {
      var e :| 0 < e <= d && health[Back(j, e, n)];
      assert seen[d - e] == health[Back(j, e, n)];
      assert !IsFirstTrue(seen, d);
      var f := FirstTrue(seen);
      if f.Some? {
        AtIsInjective(start, f.value, d, n);
      }
    }
  }

  /** Over the round of tickets j+1 .. j+n the scans start one place after j, ..., at j. */
  lemma {:induction false} RoundEndingAt(health: seq<bool>, j: nat, k: nat)
    requires j < |health| && health[j] && k <= |health|
    ensures var last := |health| - 1 - Gap(health, j);
            Answered(health, j + 1, k, j) == if k <= last then 0 else k - last
  {
    if k > 0 {
      var n := |health|;
      RoundEndingAt(health, j, k - 1);
      SmallMod(j + k, n);
      assert (j + 1 + (k - 1)) % n == Back(j, n - k, n);
      StartBeforePicksIff(health, j, n - k);
    }
  }

  lemma {:induction false} AnsweredFromNext(health: seq<bool>, from: nat, k: nat, j: nat)
    requires health != []
    ensures Answered(health, from, k + 1, j)
            == Answered(health, from + 1, k, j) + if Picked(health, from) == Some(j) then 1 else 0
  {
    if k > 0 {
      AnsweredFromNext(health, from, k - 1, j);
    }
  }

  lemma RoundShifts(health: seq<bool>, from: nat, j: nat)
    requires health != []
    ensures Answered(health, from, |health|, j) == Answered(health, from + 1, |health|, j)
  {
    AnsweredFromNext(health, from, |health|, j);
    ModStep(from, |health|);
  }

  lemma {:induction false} RoundsAgree(health: seq<bool>, from: nat, j: nat)
    requires health != []
    ensures Answered(health, from, |health|, j) == Answered(health, 0, |health|, j)
  {
    if from > 0 {
      RoundsAgree(health, from - 1, j);
      RoundShifts(health, from - 1, j);
    }
  }

  lemma {:induction false} UnhealthyNeverPicked(health: seq<bool>, from: nat, k: nat, j: nat)
    requires j < |health| && !health[j]
    ensures Answered(health, from, k, j) == 0
  {
    if k > 0 {
      UnhealthyNeverPicked(health, from, k - 1, j);
    }
  }

  /** A position's share of a round: once for itself and once for every position of the
      unhealthy run just before it, and nothing if it is unhealthy. */
  function Share(health: seq<bool>, j: nat): nat
    requires j < |health|
  {
    if health[j] then 1 + Gap(health, j) else 0
  }

  /** Any n consecutive tickets answer position j exactly its share of times. */
  lemma RoundDistribution(health: seq<bool>, from: nat, j: nat)
    requires j < |health|
    ensures Answered(health, from, |health|, j) == Share(health, j)
  {
    if health[j] {
      RoundEndingAt(health, j, |health|);
      RoundsAgree(health, from, j);
      RoundsAgree(health, j + 1, j);
    } else {
      UnhealthyNeverPicked(health, from, |health|, j);
    }
  }

  lemma {:induction false} AnsweredSplits(health: seq<bool>, from: nat, k: nat, l: nat, j: nat)
    requires health != []
    ensures Answered(health, from, k + l, j) == Answered(health, from, k, j) + Answered(health, from + k, l, j)
  {
    if l > 0 {
      AnsweredSplits(health, from, k, l - 1, j);
    }
  }

  lemma {:induction false} RoundsDistribution(health: seq<bool>, rounds: nat, j: nat)
    requires j < |health|
    ensures Answered(health, 0, rounds * |health|, j) == rounds * Share(health, j)
  {
    if rounds > 0 {
      RoundsDistribution(health, rounds - 1, j);
      AddRound(health, (rounds - 1) * |health|, j);
      OneMoreTimes(rounds, |health|);
      OneMoreTimes(rounds, Share(health, j));
    }
  }

  lemma AddRound(health: seq<bool>, done: nat, j: nat)
    requires j < |health|
    ensures Answered(health, 0, done + |health|, j) == Answered(health, 0, done, j) + Share(health, j)
  {
    RoundDistribution(health, done, j);
    AnsweredSplits(health, 0, done, |health|, j);
  }

  lemma OneMoreTimes(k: nat, x: nat)
    requires k > 0
    ensures (k - 1) * x + x == k * x
  {
  }

  // ----- Concurrent Picks ----------------------------------------------------------------

  type Listing = s: seq<nat> | s != [] witness [0]

  /** A Pick, from its copy of the list, through its ticket, one health read at a time. */
  datatype Pick =
    | Arrived
    | Ticketing(snap: Listing)
    | Scanning(snap: Listing, ticket: nat, i: nat)
    | Served(snap: Listing, ticket: nat, position: nat)
    | Turned

  datatype State = State(backends: seq<nat>, next: nat, healthy: set<nat>, picks: seq<Pick>)

  datatype Action = Spawn | Step(t: nat) | Publish(backends: seq<nat>) | SetHealthy(b: nat, up: bool)

  function Advance(s: State, p: Pick): (nat, Pick)
  {
    match p
    case Arrived =>
      if s.backends == [] then (s.next, Turned)
      else
        var snap: Listing := s.backends;
        (s.next, Ticketing(snap))
    case Ticketing(snap) =>
      if s.next >= TICKET_LIMIT then (s.next, p) else (s.next + 1, Scanning(snap, s.next, 0))
    case Scanning(snap, ticket, i) =>
      if i >= |snap| then (s.next, Turned)
      else
        var k := At(ticket % |snap|, i, |snap|);
        if snap[k] in s.healthy then (s.next, Served(snap, ticket, k))
        else (s.next, Scanning(snap, ticket, i + 1))
    case _ => (s.next, p)
  }

  function Apply(s: State, a: Action): State
  {
    match a
    case Spawn => s.(picks := s.picks + [Arrived])
    case Step(t) =>
      if t < |s.picks| then
        var (next, p) := Advance(s, s.picks[t]);
        s.(next := next, picks := s.picks[t := p])
      else s
    case Publish(backends) => s.(backends := backends)
    case SetHealthy(b, up) => s.(healthy := if up then s.healthy + {b} else s.healthy - {b})
  }

  function Exec(s: State, schedule: seq<Action>): State
  {
    if schedule == [] then s else Apply(Exec(s, schedule[..|schedule| - 1]), schedule[|schedule| - 1])
  }

  function ServedAt(j: nat): Pick -> int
  {
    (p: Pick) => if p.Served? && p.position == j then 1 else 0
  }

  /** A Pick that has a ticket and will be, or was, answered with position j. */
  function BoundFor(health: seq<bool>, j: nat): Pick -> int
    requires health != []
  {
    (p: Pick) =>
      if p.Served? && p.position == j then 1
      else if p.Scanning? && Picked(health, p.ticket) == Some(j) then 1 else 0
  }

  ghost predicate PickOk(s: State, p: Pick)
  {
    match p
    case Ticketing(snap) => snap == s.backends
    case Scanning(snap, ticket, i) =>
      && snap == s.backends && i <= |snap|
      && forall k :: 0 <= k < i ==> snap[At(ticket % |snap|, k, |snap|)] !in s.healthy
    case _ => true
  }

  /** Every ticket handed out is held by a Pick that will be answered as the ticket says. */
  ghost predicate Inv(s: State)
    requires s.backends != []
  {
    var health := Health(s.backends, s.healthy);
    && (forall p :: p in s.picks ==> PickOk(s, p))
    && (forall j: nat :: Sum(s.picks, BoundFor(health, j)) == Answered(health, 0, s.next, j))
  }

  lemma ScanEnds(s: State, p: Pick)
    requires s.backends != [] && p.Scanning? && PickOk(s, p)
    ensures var health := Health(s.backends, s.healthy);
            var p' := Advance(s, p).1;
            && (p'.Served? ==> Picked(health, p.ticket) == Some(p'.position))
            && (p'.Turned? ==> Picked(health, p.ticket) == None)
            && PickOk(s, p')
  {
    var health := Health(s.backends, s.healthy);
    var seen := Ordered(health, p.ticket % |health|);
    FirstTrueCorrect(seen);
    assert forall k :: 0 <= k < p.i ==> !seen[k];
    if p.i < |seen| && seen[p.i] {
      assert IsFirstTrue(seen, p.i);
    }
  }

  lemma TicketBalances(s: State, p: Pick, j: nat)
    requires s.backends != [] && p.Ticketing? && PickOk(s, p)
    ensures var health := Health(s.backends, s.healthy);
            var (next, p') := Advance(s, p);
            && s.next <= next && PickOk(s, p')
            && BoundFor(health, j)(p') == Answered(health, 0, next, j) - Answered(health, 0, s.next, j)
  {
    var health := Health(s.backends, s.healthy);
    AnsweredMore(health, s.next, j);
  }

  lemma AnsweredMore(health: seq<bool>, k: nat, j: nat)
    requires health != []
    ensures Answered(health, 0, k + 1, j) == Answered(health, 0, k, j) + if Picked(health, k) == Some(j) then 1 else 0
  {
  }

  lemma AdvanceBalances(s: State, p: Pick, j: nat)
    requires s.backends != [] && PickOk(s, p)
    ensures var health := Health(s.backends, s.healthy);
            var (next, p') := Advance(s, p);
            && s.next <= next && PickOk(s, p')
            && BoundFor(health, j)(p') - BoundFor(health, j)(p)
               == Answered(health, 0, next, j) - Answered(health, 0, s.next, j)
  {
    if p.Ticketing? {
      TicketBalances(s, p, j);
    } else if p.Scanning? {
      ScanBalances(s, p, j);
    }
  }

  lemma ScanBalances(s: State, p: Pick, j: nat)
    requires s.backends != [] && p.Scanning? && PickOk(s, p)
    ensures var health := Health(s.backends, s.healthy);
            var (next, p') := Advance(s, p);
            next == s.next && PickOk(s, p') && BoundFor(health, j)(p') == BoundFor(health, j)(p)
  {
    ScanEnds(s, p);
  }

  lemma StepKeeps(s: State, a: Action)
    requires s.backends != [] && Inv(s) && (a.Spawn? || a.Step?)
    ensures Apply(s, a).backends == s.backends && Apply(s, a).healthy == s.healthy && Inv(Apply(s, a))
  {
    var health := Health(s.backends, s.healthy);
    var s' := Apply(s, a);
    if a.Step? && a.t < |s.picks| {
      var p' := Advance(s, s.picks[a.t]).1;
      forall j: nat ensures Sum(s'.picks, BoundFor(health, j)) == Answered(health, 0, s'.next, j) {
        AdvanceBalances(s, s.picks[a.t], j);
        SumUpdate(s.picks, a.t, p', BoundFor(health, j));
      }
      AdvanceBalances(s, s.picks[a.t], 0);
      forall p | p in s'.picks ensures PickOk(s', p) {
        assert p in s.picks || p == p';
        assert PickOk(s, p);
      }
    } else if a.Spawn? {
      forall j: nat ensures Sum(s'.picks, BoundFor(health, j)) == Answered(health, 0, s'.next, j) {
        SumAppend(s.picks, Arrived, BoundFor(health, j));
      }
    }
  }

  lemma {:induction false} ExecKeeps(s: State, schedule: seq<Action>)
    requires s.backends != [] && Inv(s)
    requires forall a :: a in schedule ==> a.Spawn? || a.Step?
    ensures Exec(s, schedule).backends == s.backends && Exec(s, schedule).healthy == s.healthy
    ensures Inv(Exec(s, schedule))
  {
    if schedule != [] {
      var n := |schedule| - 1;
      assert forall a :: a in schedule[..n] ==> a in schedule;
      ExecKeeps(s, schedule[..n]);
      assert schedule[n] in schedule;
      StepKeeps(Exec(s, schedule[..n]), schedule[n]);
    }
  }

  /** With a fixed non-empty list and fixed health, once every Pick that holds a ticket is
      answered, how often each position was served depends only on the number of tickets, not
      on the interleaving; after whole rounds it is the exact distribution law. */
  lemma ServedIndependentOfSchedule(backends: seq<nat>, healthy: set<nat>, schedule: seq<Action>, j: nat)
    requires backends != [] && j < |backends|
    requires forall a :: a in schedule ==> a.Spawn? || a.Step?
    requires forall p :: p in Exec(State(backends, 0, healthy, []), schedule).picks ==> !p.Scanning?
    ensures var s := Exec(State(backends, 0, healthy, []), schedule);
            var health := Health(backends, healthy);
            && Sum(s.picks, ServedAt(j)) == Answered(health, 0, s.next, j)
            && forall rounds: nat :: s.next == rounds * |backends| ==>
                 Sum(s.picks, ServedAt(j)) == rounds * Share(health, j)
  {
    var s0 := State(backends, 0, healthy, []);
    var s := Exec(s0, schedule);
    var health := Health(backends, healthy);
    assert Inv(s0);
    ExecKeeps(s0, schedule);
    SumAgree(s.picks, BoundFor(health, j), ServedAt(j));
    forall rounds: nat | s.next == rounds * |backends|
      ensures Answered(health, 0, s.next, j) == rounds * Share(health, j)
    {
      RoundsDistribution(health, rounds, j);
    }
  }

  /** From a state where b is unhealthy, until something marks it healthy again, no Pick that
      starts after that state is answered with b, whatever lists are published. */
  lemma {:induction false} UnhealthyIsNeverServed(s: State, schedule: seq<Action>, b: nat, t: nat)
    requires b !in s.healthy && |s.picks| <= t
    requires forall a :: a in schedule ==> a != SetHealthy(b, true)
    ensures var s' := Exec(s, schedule);
            && b !in s'.healthy && |s.picks| <= |s'.picks|
            && (t < |s'.picks| && s'.picks[t].Served? ==>
                  s'.picks[t].position < |s'.picks[t].snap| && s'.picks[t].snap[s'.picks[t].position] != b)
  {
    if schedule != [] {
      var n := |schedule| - 1;
      assert forall a :: a in schedule[..n] ==> a in schedule;
      UnhealthyIsNeverServed(s, schedule[..n], b, t);
      assert schedule[n] in schedule;
    }
  }

  predicate ServedWith(p: Pick, b: nat)
  {
    p.Served? && p.position < |p.snap| && p.snap[p.position] == b
  }

  /** Step n of the schedule is one at which Pick t reads b and finds it healthy. */
  predicate ReadsUpAt(s: State, schedule: seq<Action>, n: nat, t: nat, b: nat)
  {
    && n < |schedule| && schedule[n] == Step(t)
    && var r := Exec(s, schedule[..n]);
       && t < |r.picks| && r.picks[t].Scanning? && r.picks[t].i < |r.picks[t].snap|
       && r.picks[t].snap[At(r.picks[t].ticket % |r.picks[t].snap|, r.picks[t].i, |r.picks[t].snap|)] == b
       && b in r.healthy
  }

  /** Whatever a Pick that starts after state s is answered with, it has itself read healthy at
      one of its own steps since. */
  lemma {:induction false} ServedWasReadHealthy(s: State, schedule: seq<Action>, t: nat, b: nat)
    requires |s.picks| <= t
    ensures var s' := Exec(s, schedule);
            t < |s'.picks| && ServedWith(s'.picks[t], b) ==> exists n: nat :: ReadsUpAt(s, schedule, n, t, b)
  {
    if schedule != [] {
      var n := |schedule| - 1;
      var r, s' := Exec(s, schedule[..n]), Exec(s, schedule);
      ServedWasReadHealthy(s, schedule[..n], t, b);
      if t < |s'.picks| && ServedWith(s'.picks[t], b) {
        if t < |r.picks| && ServedWith(r.picks[t], b) {
          var m: nat :| ReadsUpAt(s, schedule[..n], m, t, b);
          assert schedule[..n][..m] == schedule[..m];
          assert ReadsUpAt(s, schedule, m, t, b);
        } else {
          assert ReadsUpAt(s, schedule, n, t, b);
        }
      }
    }
  }

  // ----- A Pick that nobody disturbs -----------------------------------------------------

  function StepOf(t: nat): State -> State
  {
    (s: State) => Apply(s, Step(t))
  }

  /** What a Pick that is over was answered. */
  predicate AnsweredWith(p: Pick, b: Option<nat>)
  {
    match b
    case None => p.Turned?
    case Some(d) => ServedWith(p, d)
  }

  /** Mid-scan on the published list, having found the first i positions unhealthy. */
  ghost predicate MidScan(s: State, t: nat, ticket: nat, i: nat)
  {
    && t < |s.picks| && s.backends != [] && s.picks[t] == Scanning(s.backends, ticket, i) && i <= |s.backends|
    && forall j :: 0 <= j < i ==> s.backends[At(ticket % |s.backends|, j, |s.backends|)] !in s.healthy
  }

  /** Only Pick t has moved. */
  ghost predicate OnlyMoved(s: State, r: State, t: nat)
  {
    && r.backends == s.backends && r.healthy == s.healthy && |r.picks| == |s.picks|
    && forall u :: 0 <= u < |s.picks| && u != t ==> r.picks[u] == s.picks[u]
  }

  lemma {:induction false} ScanAlone(s: State, t: nat, ticket: nat, i: nat) returns (k: nat)
    requires MidScan(s, t, ticket, i)
    ensures var r := Iterate(StepOf(t), s, k);
            && OnlyMoved(s, r, t) && r.next == s.next
            && match Picked(Health(s.backends, s.healthy), ticket)
               case None => r.picks[t].Turned?
               case Some(j) => r.picks[t] == Served(s.backends, ticket, j)
    decreases |s.backends| - i
  {
    ScanDecides(s, t, ticket, i);
    var s1 := Apply(s, Step(t));
    if i < |s.backends| && s.backends[At(ticket % |s.backends|, i, |s.backends|)] !in s.healthy {
      var l := ScanAlone(s1, t, ticket, i + 1);
      IterateFirst(StepOf(t), s, l);
      k := l + 1;
    } else {
      IterateFirst(StepOf(t), s, 0);
      k := 1;
    }
  }

  /** A healthy position, or the end of the round, decides what the ticket is answered with. */
  lemma ScanDecides(s: State, t: nat, ticket: nat, i: nat)
    requires MidScan(s, t, ticket, i)
    ensures var n := |s.backends|;
            && (i == n ==> Picked(Health(s.backends, s.healthy), ticket) == None)
            && (i < n && s.backends[At(ticket % n, i, n)] in s.healthy ==>
                  Picked(Health(s.backends, s.healthy), ticket) == Some(At(ticket % n, i, n)))
  {
    var health := Health(s.backends, s.healthy);
    var seen := Ordered(health, ticket % |health|);
    FirstTrueCorrect(seen);
    if i < |seen| && seen[i] {
      assert IsFirstTrue(seen, i);
    }
  }

  /** A Pick that starts and is not disturbed is exactly the one-step pick: it takes the next ticket
      (none on an empty list) and is answered with the first healthy backend from it, or refused if
      there is none. */
  lemma UndisturbedPick(s: State) returns (k: nat)
    requires s.next < TICKET_LIMIT
    ensures var t := |s.picks|;
            var r := Iterate(StepOf(t), Apply(s, Spawn), k);
            var (next, b) := RoundRobinPick(s.backends, s.healthy, s.next);
            && t < |r.picks| && r.next == next && AnsweredWith(r.picks[t], b)
            && OnlyMoved(Apply(s, Spawn), r, t)
  {
    var t := |s.picks|;
    var s0 := Apply(s, Spawn);
    var s1 := Apply(s0, Step(t));
    if s.backends == [] {
      IterateFirst(StepOf(t), s0, 0);
      k := 1;
    } else {
      var s2 := Apply(s1, Step(t));
      var l := ScanAlone(s2, t, s.next, 0);
      IterateFirst(StepOf(t), s1, l);
      IterateFirst(StepOf(t), s0, l + 1);
      k := l + 2;
    }
  }

  /** Marking sets the health of one backend and moves nothing else. */
  lemma MarkSetsHealth(s: State, b: nat, up: bool, d: nat)
    ensures var r := Apply(s, SetHealthy(b, up));
            && (d in r.healthy <==> if d == b then up else d in s.healthy)
            && (r.backends, r.next, r.picks) == (s.backends, s.next, s.picks)
  {
  }

  /** Publishing replaces the list and nothing else; Picks under way keep the one they copied. */
  lemma PublishSetsList(s: State, backends: seq<nat>)
    ensures var r := Apply(s, Publish(backends));
            r.backends == backends && (r.healthy, r.next, r.picks) == (s.healthy, s.next, s.picks)
  {
  }
}
