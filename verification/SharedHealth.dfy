/** All strategies at once over one shared health: the step machines of every instance that was ever
    switched to, run side by side. Old instances go on serving the Selects that started on them. */
module SharedHealth {
  import RandomMachine
  import RoundRobinLaw
  import SelectMachine
  import SelectTheorems

  /** An instance of least_pending, cost_aware or kv_aware, of round_robin, or of random. */
  datatype Instance =
    | Tracking(tracker: SelectMachine.State)
    | Rotating(ring: RoundRobinLaw.State)
    | Drawing(pool: RandomMachine.State)

  /** A step within an instance. */
  datatype Move =
    | Track(track: SelectMachine.Action)
    | Rotate(rotate: RoundRobinLaw.Action)
    | Draw(draw: RandomMachine.Action)

  datatype Kind = Tracker | Ring | Pool

  datatype State = State(healthy: set<nat>, instances: seq<Instance>)

  /** Health is changed in one place, by a probe or a failed call, for all instances. */
  datatype Action =
    | Switch(kind: Kind, backends: seq<nat>)
    | Within(i: nat, move: Move)
    | SetHealthy(b: nat, up: bool)

  function New(kind: Kind, backends: seq<nat>, healthy: set<nat>): Instance
  {
    match kind
    case Tracker => Tracking(SelectMachine.Fresh(backends, healthy))
    case Ring => Rotating(RoundRobinLaw.State(backends, 0, healthy, []))
    case Pool => Drawing(RandomMachine.State(backends, healthy, []))
  }

  function ApplyWithin(x: Instance, m: Move): Instance
  {
    if x.Tracking? && m.Track? && !m.track.SetHealthy? then Tracking(SelectMachine.Apply(x.tracker, m.track))
    else if x.Rotating? && m.Rotate? && !m.rotate.SetHealthy? then Rotating(RoundRobinLaw.Apply(x.ring, m.rotate))
    else if x.Drawing? && m.Draw? && !m.draw.SetHealthy? then Drawing(RandomMachine.Apply(x.pool, m.draw))
    else x
  }

  function WithHealth(x: Instance, healthy: set<nat>): Instance
  {
    match x
    case Tracking(s) => Tracking(s.(healthy := healthy))
    case Rotating(s) => Rotating(s.(healthy := healthy))
    case Drawing(s) => Drawing(s.(healthy := healthy))
  }

  function Apply(s: State, a: Action): State
  {
    match a
    case Switch(kind, backends) => s.(instances := s.instances + [New(kind, backends, s.healthy)])
    case Within(i, m) =>
      if i < |s.instances| then s.(instances := s.instances[i := ApplyWithin(s.instances[i], m)]) else s
    case SetHealthy(b, up) =>
      var healthy := if up then s.healthy + {b} else s.healthy - {b};
      State(healthy, seq(|s.instances|, i requires 0 <= i < |s.instances| => WithHealth(s.instances[i], healthy)))
  }

  function Exec(s: State, schedule: seq<Action>): State
  {
    if schedule == [] then s else Apply(Exec(s, schedule[..|schedule| - 1]), schedule[|schedule| - 1])
  }

  function HealthOf(x: Instance): set<nat>
  {
    match x
    case Tracking(s) => s.healthy
    case Rotating(s) => s.healthy
    case Drawing(s) => s.healthy
  }

  /** How many Selects have started on the instance. */
  function Selects(x: Instance): nat
  {
    match x
    case Tracking(s) => |s.threads|
    case Rotating(s) => |s.picks|
    case Drawing(s) => |s.draws|
  }

  /** Select t, if it has started, neither holds nor returns b. */
  predicate Clear(x: Instance, t: nat, b: nat)
  {
    match x
    case Tracking(s) => t < |s.threads| ==> SelectTheorems.Avoids(s.threads[t], b)
    case Rotating(s) => t < |s.picks| ==> !RoundRobinLaw.ServedWith(s.picks[t], b)
    case Drawing(s) => t < |s.draws| ==> !RandomMachine.Holds(s.draws[t], b)
  }

  ghost predicate InSync(s: State)
  {
    forall i :: 0 <= i < |s.instances| ==> HealthOf(s.instances[i]) == s.healthy
  }

  lemma WithinKeepsClear(x: Instance, m: Move, t: nat, b: nat)
    requires b !in HealthOf(x) && Clear(x, t, b)
    ensures var y := ApplyWithin(x, m);
            HealthOf(y) == HealthOf(x) && Selects(x) <= Selects(y) && Clear(y, t, b)
  {
    if x.Tracking? && m.Track? && !m.track.SetHealthy? {
      SelectTheorems.AvoidsStep(x.tracker, m.track, b, t);
    }
  }

  /** From a state where b is unhealthy, until something marks it healthy again, no Select that
      starts after that state, on any instance of any strategy, old or switched to later, holds or
      returns b, whatever the interleaving. */
  lemma {:induction false} UnhealthyIsNeverReturned(s: State, schedule: seq<Action>, b: nat, i: nat, t: nat)
    requires InSync(s) && b !in s.healthy
    requires forall a :: a in schedule ==> a != SetHealthy(b, true)
    requires i < |s.instances| ==> Selects(s.instances[i]) <= t
    ensures var s' := Exec(s, schedule);
            && InSync(s') && b !in s'.healthy && |s.instances| <= |s'.instances|
            && (i < |s'.instances| ==> Clear(s'.instances[i], t, b))
  {
    if schedule != [] {
      var n := |schedule| - 1;
      var r := Exec(s, schedule[..n]);
      assert forall a :: a in schedule[..n] ==> a in schedule;
      UnhealthyIsNeverReturned(s, schedule[..n], b, i, t);
      assert schedule[n] in schedule;
      StepKeepsClear(r, schedule[n], b, i, t);
    }
  }

  lemma StepKeepsClear(s: State, a: Action, b: nat, i: nat, t: nat)
    requires InSync(s) && b !in s.healthy && a != SetHealthy(b, true)
    requires i < |s.instances| ==> Clear(s.instances[i], t, b)
    ensures var s' := Apply(s, a);
            && InSync(s') && b !in s'.healthy && |s.instances| <= |s'.instances|
            && (i < |s'.instances| ==> Clear(s'.instances[i], t, b))
  {
    if a.Within? && a.i < |s.instances| {
      HealthStays(s.instances[a.i], a.move);
      if a.i == i {
        WithinKeepsClear(s.instances[i], a.move, t, b);
      }
    }
  }

  lemma HealthStays(x: Instance, m: Move)
    ensures HealthOf(ApplyWithin(x, m)) == HealthOf(x)
  {
  }

  // ----- Each instance is its own machine ------------------------------------------------

  /** What an action is to instance i of load-tracking kind, and so on: its own moves, and every
      health change. */
  function ForTracker(a: Action, i: nat): seq<SelectMachine.Action>
  {
    match a
    case Within(j, Track(m)) => if j == i && !m.SetHealthy? then [m] else []
    case SetHealthy(b, up) => [SelectMachine.SetHealthy(b, up)]
    case _ => []
  }

  function ForRing(a: Action, i: nat): seq<RoundRobinLaw.Action>
  {
    match a
    case Within(j, Rotate(m)) => if j == i && !m.SetHealthy? then [m] else []
    case SetHealthy(b, up) => [RoundRobinLaw.SetHealthy(b, up)]
    case _ => []
  }

  function ForPool(a: Action, i: nat): seq<RandomMachine.Action>
  {
    match a
    case Within(j, Draw(m)) => if j == i && !m.SetHealthy? then [m] else []
    case SetHealthy(b, up) => [RandomMachine.SetHealthy(b, up)]
    case _ => []
  }

  /** The instance after its own moves in a schedule and the health changes in it, on its own
      machine. */
  function OwnRun(x: Instance, schedule: seq<Action>, i: nat): Instance
  {
    if schedule == [] then x
    else
      var a := schedule[|schedule| - 1];
      match OwnRun(x, schedule[..|schedule| - 1], i)
      case Tracking(s) => Tracking(SelectMachine.Exec(s, ForTracker(a, i)))
      case Rotating(s) => Rotating(RoundRobinLaw.Exec(s, ForRing(a, i)))
      case Drawing(s) => Drawing(RandomMachine.Exec(s, ForPool(a, i)))
  }

  lemma ExecOne(x: Instance, m: SelectMachine.Action, r: RoundRobinLaw.Action, d: RandomMachine.Action)
    ensures x.Tracking? ==> SelectMachine.Exec(x.tracker, [m]) == SelectMachine.Apply(x.tracker, m)
    ensures x.Rotating? ==> RoundRobinLaw.Exec(x.ring, [r]) == RoundRobinLaw.Apply(x.ring, r)
    ensures x.Drawing? ==> RandomMachine.Exec(x.pool, [d]) == RandomMachine.Apply(x.pool, d)
    ensures x.Tracking? ==> SelectMachine.Exec(x.tracker, []) == x.tracker
    ensures x.Rotating? ==> RoundRobinLaw.Exec(x.ring, []) == x.ring
    ensures x.Drawing? ==> RandomMachine.Exec(x.pool, []) == x.pool
  {
    assert [m][..0] == [] && [r][..0] == [] && [d][..0] == [];
  }

  lemma OneStepIsOwn(s: State, a: Action, i: nat)
    requires InSync(s) && i < |s.instances|
    ensures Apply(s, a).instances[i] == OwnRun(s.instances[i], [a], i)
  {
    var x := s.instances[i];
    assert [a][..0] == [] && OwnRun(x, [], i) == x;
    var m := if a.SetHealthy? then SelectMachine.SetHealthy(a.b, a.up)
             else if a.Within? && a.move.Track? then a.move.track else SelectMachine.Publish([]);
    var r := if a.SetHealthy? then RoundRobinLaw.SetHealthy(a.b, a.up)
             else if a.Within? && a.move.Rotate? then a.move.rotate else RoundRobinLaw.Spawn;
    var d := if a.SetHealthy? then RandomMachine.SetHealthy(a.b, a.up)
             else if a.Within? && a.move.Draw? then a.move.draw else RandomMachine.Spawn;
    ExecOne(x, m, r, d);
  }

  /** An instance does, in any run of them all, exactly what its own machine does under its own
      moves and all health changes: everything proved of the machines alone holds of it. */
  lemma {:induction false} InstanceIsOwnRun(s: State, schedule: seq<Action>, i: nat)
    requires InSync(s) && i < |s.instances|
    ensures var r := Exec(s, schedule);
            InSync(r) && |s.instances| <= |r.instances| && r.instances[i] == OwnRun(s.instances[i], schedule, i)
  {
    if schedule != [] {
      var n := |schedule| - 1;
      var r := Exec(s, schedule[..n]);
      InstanceIsOwnRun(s, schedule[..n], i);
      OneStepIsOwn(r, schedule[n], i);
      SyncStays(r, schedule[n]);
      assert [schedule[n]][..0] == [] && OwnRun(r.instances[i], [], i) == r.instances[i];
    }
  }

  lemma SyncStays(s: State, a: Action)
    requires InSync(s)
    ensures InSync(Apply(s, a)) && |s.instances| <= |Apply(s, a).instances|
  {
    if a.Within? && a.i < |s.instances| {
      HealthStays(s.instances[a.i], a.move);
    }
  }

  /** A switch adds a new instance of its kind, on the published health, on which nothing has
      started, and touches no other. */
  lemma SwitchAddsNew(s: State, kind: Kind, backends: seq<nat>)
    ensures var r := Apply(s, Switch(kind, backends));
            && |r.instances| == |s.instances| + 1 && r.instances[..|s.instances|] == s.instances
            && var x := r.instances[|s.instances|];
               && (kind.Tracker? <==> x.Tracking?) && (kind.Ring? <==> x.Rotating?) && (kind.Pool? <==> x.Drawing?)
               && Selects(x) == 0 && HealthOf(x) == s.healthy
               && (x.Tracking? ==> x.tracker.book.backends == backends)
               && (x.Rotating? ==> x.ring.backends == backends && x.ring.next == 0)
               && (x.Drawing? ==> x.pool.backends == backends)
  {
  }
}
