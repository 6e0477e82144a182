/** Concurrent Selects of the random strategy: the list is copied, the healthy backends are gathered
    one health read at a time, and one of them is drawn. */
module RandomMachine {
  import opened Books
  import opened Iteration

  datatype Draw =
    | Arrived
    | Gathering(snap: seq<nat>, i: nat, found: seq<nat>)
    | Served(backend: nat)
    | Turned

  datatype State = State(backends: seq<nat>, healthy: set<nat>, draws: seq<Draw>)

  /** A step carries the number that the generator would give it. */
  datatype Action = Spawn | Step(t: nat, drawn: nat) | Publish(backends: seq<nat>) | SetHealthy(b: nat, up: bool)

  function Advance(s: State, d: Draw, drawn: nat): Draw
  {
    match d
    case Arrived => Gathering(s.backends, 0, [])
    case Gathering(snap, i, found) =>
      if i < |snap| then Gathering(snap, i + 1, if snap[i] in s.healthy then found + [snap[i]] else found)
      else if found == [] then Turned
      else Served(found[drawn % |found|])
    case _ => d
  }

  function Apply(s: State, a: Action): State
  {
    match a
    case Spawn => s.(draws := s.draws + [Arrived])
    case Step(t, drawn) =>
      if t < |s.draws| then s.(draws := s.draws[t := Advance(s, s.draws[t], drawn)]) else s
    case Publish(backends) => s.(backends := backends)
    case SetHealthy(b, up) => s.(healthy := if up then s.healthy + {b} else s.healthy - {b})
  }

  function Exec(s: State, schedule: seq<Action>): State
  {
    if schedule == [] then s else Apply(Exec(s, schedule[..|schedule| - 1]), schedule[|schedule| - 1])
  }

  /** The Select may still draw b, or has. */
  predicate Holds(d: Draw, b: nat)
  {
    (d.Gathering? && b in d.found) || d == Served(b)
  }

  /** Step n of the schedule is one at which Select t reads b and finds it healthy. */
  predicate ReadsUpAt(s: State, schedule: seq<Action>, n: nat, t: nat, b: nat)
  {
    && n < |schedule| && schedule[n].Step? && schedule[n].t == t
    && var r := Exec(s, schedule[..n]);
       && t < |r.draws| && r.draws[t].Gathering? && r.draws[t].i < |r.draws[t].snap|
       && r.draws[t].snap[r.draws[t].i] == b && b in r.healthy
  }

  /** Whatever a Select that starts after state s gathers or returns, it has itself read healthy
      at one of its own steps since. */
  lemma {:induction false} ServedWasReadHealthy(s: State, schedule: seq<Action>, t: nat, b: nat)
    requires |s.draws| <= t
    ensures var s' := Exec(s, schedule);
            t < |s'.draws| && Holds(s'.draws[t], b) ==> exists n: nat :: ReadsUpAt(s, schedule, n, t, b)
  {
    if schedule != [] {
      var n := |schedule| - 1;
      var r, s' := Exec(s, schedule[..n]), Exec(s, schedule);
      ServedWasReadHealthy(s, schedule[..n], t, b);
      if t < |s'.draws| && Holds(s'.draws[t], b) {
        if t < |r.draws| && Holds(r.draws[t], b) {
          var m: nat :| ReadsUpAt(s, schedule[..n], m, t, b);
          assert schedule[..n][..m] == schedule[..m];
          assert ReadsUpAt(s, schedule, m, t, b);
        } else {
          assert ReadsUpAt(s, schedule, n, t, b);
        }
      }
    }
  }

  /** From a state where b is unhealthy, until something marks it healthy again, no Select that
      starts after that state gathers or returns b. */
  lemma {:induction false} UnhealthyIsNeverServed(s: State, schedule: seq<Action>, b: nat, t: nat)
    requires b !in s.healthy && |s.draws| <= t
    requires forall a :: a in schedule ==> a != SetHealthy(b, true)
    ensures var s' := Exec(s, schedule);
            && b !in s'.healthy && |s.draws| <= |s'.draws|
            && (t < |s'.draws| ==> !Holds(s'.draws[t], b))
  {
    if schedule != [] {
      var n := |schedule| - 1;
      assert forall a :: a in schedule[..n] ==> a in schedule;
      UnhealthyIsNeverServed(s, schedule[..n], b, t);
      assert schedule[n] in schedule;
    }
  }

  // ----- A Select that nobody disturbs ---------------------------------------------------

  function StepOf(t: nat, drawn: nat): State -> State
  {
    (s: State) => Apply(s, Step(t, drawn))
  }

  ghost predicate OnlyMoved(s: State, r: State, t: nat)
  {
    && r.backends == s.backends && r.healthy == s.healthy && |r.draws| == |s.draws|
    && forall u :: 0 <= u < |s.draws| && u != t ==> r.draws[u] == s.draws[u]
  }

  lemma {:induction false} GatherAlone(s: State, t: nat, drawn: nat, i: nat) returns (k: nat)
    requires t < |s.draws| && i <= |s.backends|
    requires s.draws[t] == Gathering(s.backends, i, Up(s.backends[..i], s.healthy))
    ensures var r := Iterate(StepOf(t, drawn), s, k);
            var ones := Up(s.backends, s.healthy);
            && OnlyMoved(s, r, t)
            && r.draws[t] == if ones == [] then Turned else Served(ones[drawn % |ones|])
    decreases |s.backends| - i
  {
    if i == |s.backends| {
      assert s.backends[..i] == s.backends;
      IterateFirst(StepOf(t, drawn), s, 0);
      k := 1;
    } else {
      assert s.backends[..i + 1][..i] == s.backends[..i];
      var l := GatherAlone(Apply(s, Step(t, drawn)), t, drawn, i + 1);
      IterateFirst(StepOf(t, drawn), s, l);
      k := l + 1;
    }
  }

  /** A Select that starts and is not disturbed returns the drawn one of the healthy backends in
      list order, and is refused exactly if there is none. */
  lemma UndisturbedDraw(s: State, drawn: nat) returns (k: nat)
    ensures var t := |s.draws|;
            var r := Iterate(StepOf(t, drawn), Apply(s, Spawn), k);
            var ones := Up(s.backends, s.healthy);
            && OnlyMoved(Apply(s, Spawn), r, t) && t < |r.draws|
            && r.draws[t] == if ones == [] then Turned else Served(ones[drawn % |ones|])
  {
    var t := |s.draws|;
    var s0 := Apply(s, Spawn);
    assert s.backends[..0] == [];
    var l := GatherAlone(Apply(s0, Step(t, drawn)), t, drawn, 0);
    IterateFirst(StepOf(t, drawn), s0, l);
    k := l + 1;
  }

  /** Marking sets the health of one backend, publishing replaces the list, and nothing else. */
  lemma MarkAndPublish(s: State, b: nat, up: bool, d: nat, backends: seq<nat>)
    ensures var r := Apply(s, SetHealthy(b, up));
            && (d in r.healthy <==> if d == b then up else d in s.healthy)
            && (r.backends, r.draws) == (s.backends, s.draws)
    ensures Apply(s, Publish(backends)) == State(backends, s.healthy, s.draws)
  {
  }
}
