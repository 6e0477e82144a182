/** Many requests at once, with strategy switches and probes in between: the request lifecycle as
    a step machine, and the accounting of the metrics and of every strategy instance's counters
    over all its runs. What a Select reads and picks is left open here, except that it only picks
    a backend that it has read healthy at one of its own steps, which is proved of every strategy's
    own step machine; SharedHealth proves health safety over those machines themselves. */
module Lifecycle {
  import opened Sums
  import opened Metrics
  import opened Kinds
  import Books

  const KINDS := [RoundRobin, LeastPending, Random, KVAware]

  /** A strategy instance; loads are its counters by backend name. */
  datatype Instance = Instance(kind: Kind, loads: map<string, int>)

  /** How far a request with a decision has come; `ok` is the outcome of the backend call. */
  datatype Stage =
    | Chosen | StrategyCounted | BackendCounted | CacheCounted
    | InFlight | Timed(ok: bool) | Marked | ErrorCounted
    | Left(ok: bool) | Released(ok: bool)
  {
    function Rank(): nat
    {
      match this
      case Chosen => 0
      case StrategyCounted => 1
      case BackendCounted => 2
      case CacheCounted => 3
      case InFlight => 4
      case Timed(_) => 5
      case Marked => 6
      case ErrorCounted => 7
      case Left(_) => 8
      case Released(_) => 9
    }
  }

  /** A request that passed validation. Once bound it keeps the instance and the name it read
      together; `up` are the backends it has read healthy. */
  datatype Request =
    | Arrived
    | Accepted
    | Bound(i: nat, kind: Kind, up: set<string>)
    | Refused
    | Served(i: nat, kind: Kind, backend: string, hit: bool, stage: Stage)

  datatype Tally = Tally(requestsTotal: int, inFlight: int, backendErrors: int, hits: int, misses: int,
                         strategies: map<Kind, int>, backends: map<string, int>)

  const ZERO := Tally(0, 0, 0, 0, 0, map[], map[])

  datatype State = State(names: seq<string>, healthy: set<string>, instances: seq<Instance>, active: nat,
                         tally: Tally, requests: seq<Request>)

  /** A switch creates its instance first and installs it later; Step is the next statement of a
      request, where that depends on nothing else. */
  datatype Action =
    | Arrive
    | Create(kind: Kind)
    | Install(i: nat)
    | Probe(b: string, up: bool)
    | Look(r: nat, b: string)
    | Choose(r: nat, b: string, hit: bool)
    | Refuse(r: nat)
    | Reply(r: nat, ok: bool)
    | Step(r: nat)

  /** The instances after `delta` on one counter, if the strategy keeps counters. */
  function Charge(instances: seq<Instance>, i: nat, kind: Kind, b: string, delta: int): seq<Instance>
  {
    if kind.Tracks() && i < |instances|
    then instances[i := instances[i].(loads := Added(instances[i].loads, b, delta))]
    else instances
  }

  function CountStage(t: Tally, q: Request): Tally
    requires q.Served?
  {
    match q.stage
    case Chosen => t.(strategies := Added(t.strategies, q.kind, 1))
    case StrategyCounted => t.(backends := Added(t.backends, q.backend, 1))
    case BackendCounted =>
      if !q.kind.KVAware? then t else if q.hit then t.(hits := t.hits + 1) else t.(misses := t.misses + 1)
    case CacheCounted => t.(inFlight := t.inFlight + 1)
    case Timed(ok) => if ok then t.(inFlight := t.inFlight - 1) else t
    case Marked => t.(backendErrors := t.backendErrors + 1)
    case ErrorCounted => t.(inFlight := t.inFlight - 1)
    case _ => t
  }

  function NextStage(g: Stage): Stage
  {
    match g
    case Chosen => StrategyCounted
    case StrategyCounted => BackendCounted
    case BackendCounted => CacheCounted
    case CacheCounted => InFlight
    case InFlight => InFlight
    case Timed(ok) => if ok then Left(true) else Marked
    case Marked => ErrorCounted
    case ErrorCounted => Left(false)
    case Left(ok) => Released(ok)
    case Released(ok) => Released(ok)
  }

  function StepRequest(s: State, r: nat): State
    requires r < |s.requests|
  {
    var q := s.requests[r];
    match q
    case Arrived =>
      s.(tally := s.tally.(requestsTotal := s.tally.requestsTotal + 1), requests := s.requests[r := Accepted])
    case Accepted =>
      if s.active < |s.instances|
      then s.(requests := s.requests[r := Bound(s.active, s.instances[s.active].kind, {})])
      else s
    case Served(i, kind, b, hit, stage) =>
      s.(tally := CountStage(s.tally, q),
         healthy := if stage == Timed(false) then s.healthy - {b} else s.healthy,
         instances := if stage.Left? then Charge(s.instances, i, kind, b, -1) else s.instances,
         requests := s.requests[r := q.(stage := NextStage(stage))])
    case _ => s
  }

  function Apply(s: State, a: Action): State
  {
    match a
    case Arrive => s.(requests := s.requests + [Arrived])
    case Create(kind) => s.(instances := s.instances + [Instance(kind, map[])])
    case Install(i) => if i < |s.instances| then s.(active := i) else s
    case Probe(b, up) => s.(healthy := if up then s.healthy + {b} else s.healthy - {b})
    case Look(r, b) =>
      if r < |s.requests| && s.requests[r].Bound? && b in s.healthy
      then s.(requests := s.requests[r := s.requests[r].(up := s.requests[r].up + {b})])
      else s
    case Choose(r, b, hit) =>
      if r < |s.requests| && s.requests[r].Bound? && b in s.names && b in s.requests[r].up
         && (hit ==> s.requests[r].kind.KVAware?)
      then
        var q := s.requests[r];
        s.(instances := Charge(s.instances, q.i, q.kind, b, 1),
           requests := s.requests[r := Served(q.i, q.kind, b, hit, Chosen)])
      else s
    case Refuse(r) =>
      if r < |s.requests| && s.requests[r].Bound? then s.(requests := s.requests[r := Refused]) else s
    case Reply(r, ok) =>
      if r < |s.requests| && s.requests[r].Served? && s.requests[r].stage.InFlight?
      then s.(requests := s.requests[r := s.requests[r].(stage := Timed(ok))])
      else s
    case Step(r) => if r < |s.requests| then StepRequest(s, r) else s
  }

  function Exec(s: State, schedule: seq<Action>): State
  {
    if schedule == [] then s else Apply(Exec(s, schedule[..|schedule| - 1]), schedule[|schedule| - 1])
  }

  /** A server that has just started. */
  function Started(names: seq<string>): State
  {
    State(names, set b | b in names, [Instance(RoundRobin, map[])], 0, ZERO, [])
  }

  // ----- What each request contributes ---------------------------------------------------

  function One(b: bool): int
  {
    if b then 1 else 0
  }

  /** Has taken its Select's decision and come at least as far as `rank`. */
  predicate Reached(q: Request, rank: nat)
  {
    q.Served? && q.stage.Rank() >= rank
  }

  function Entered(): Request -> int { (q: Request) => One(!q.Arrived?) }

  function TurnedAway(): Request -> int { (q: Request) => One(q.Refused?) }

  function ByStrategy(): Request -> int { (q: Request) => One(Reached(q, 1)) }

  function ByKind(kind: Kind): Request -> int { (q: Request) => One(Reached(q, 1) && q.kind == kind) }

  function ByBackend(): Request -> int { (q: Request) => One(Reached(q, 2)) }

  function OnBackend(b: string): Request -> int { (q: Request) => One(Reached(q, 2) && q.backend == b) }

  function HitOne(): Request -> int { (q: Request) => One(Reached(q, 3) && q.kind.KVAware? && q.hit) }

  function MissOne(): Request -> int { (q: Request) => One(Reached(q, 3) && q.kind.KVAware? && !q.hit) }

  function Flying(): Request -> int { (q: Request) => One(Reached(q, 4) && !Reached(q, 8)) }

  predicate Failed(g: Stage)
  {
    g.ErrorCounted? || g == Left(false) || g == Released(false)
  }

  function FailedOne(): Request -> int { (q: Request) => One(q.Served? && Failed(q.stage)) }

  predicate Holds(q: Request)
  {
    q.Served? && q.kind.Tracks() && !Reached(q, 9)
  }

  function Holding(): Request -> int { (q: Request) => One(Holds(q)) }

  function HoldingOn(i: nat, b: string): Request -> int
  {
    (q: Request) => One(Holds(q) && q.i == i && q.backend == b)
  }

  function CountOf<K(==)>(counts: map<K, int>): K -> int
  {
    (name: K) => Count(counts, name)
  }

  function LoadsOf(names: seq<string>): Instance -> int
  {
    (x: Instance) => Sum(names, CountOf(x.loads))
  }

  /** All counters of all instances, the replaced ones included. */
  function TotalLoad(s: State): int
  {
    Sum(s.instances, LoadsOf(s.names))
  }

  // ----- The invariant -------------------------------------------------------------------

  ghost predicate RequestOk(s: State, q: Request)
  {
    match q
    case Bound(i, kind, _) => i < |s.instances| && s.instances[i].kind == kind
    case Served(i, kind, b, hit, _) =>
      i < |s.instances| && s.instances[i].kind == kind && b in s.names && (hit ==> kind.KVAware?)
    case _ => true
  }

  ghost predicate Tallied(t: Tally, qs: seq<Request>)
  {
    && t.requestsTotal == Sum(qs, Entered())
    && t.inFlight == Sum(qs, Flying())
    && t.backendErrors == Sum(qs, FailedOne())
    && t.hits == Sum(qs, HitOne())
    && t.misses == Sum(qs, MissOne())
    && (forall kind: Kind :: Count(t.strategies, kind) == Sum(qs, ByKind(kind)))
    && (forall b :: Count(t.backends, b) == Sum(qs, OnBackend(b)))
  }

  ghost predicate Totalled(t: Tally, names: seq<string>, qs: seq<Request>)
  {
    && Sum(KINDS, CountOf(t.strategies)) == Sum(qs, ByStrategy())
    && Sum(names, CountOf(t.backends)) == Sum(qs, ByBackend())
  }

  ghost predicate Charged(instances: seq<Instance>, qs: seq<Request>)
  {
    forall i, b :: 0 <= i < |instances| ==> Count(instances[i].loads, b) == Sum(qs, HoldingOn(i, b))
  }

  ghost predicate Inv(s: State)
  {
    && Books.Distinct(s.names) && s.active < |s.instances|
    && (forall q :: q in s.requests ==> RequestOk(s, q))
    && Tallied(s.tally, s.requests) && Totalled(s.tally, s.names, s.requests)
    && Charged(s.instances, s.requests)
    && TotalLoad(s) == Sum(s.requests, Holding())
  }

  lemma EveryKind(kind: Kind)
    ensures kind in KINDS && Books.Distinct(KINDS)
  {
    assert KINDS[0] == RoundRobin && KINDS[1] == LeastPending && KINDS[2] == Random && KINDS[3] == KVAware;
  }

  lemma AddMovesSum<K>(names: seq<K>, counts: map<K, int>, name: K, delta: int)
    requires Books.Distinct(names) && name in names
    ensures Sum(names, CountOf(Added(counts, name, delta))) == Sum(names, CountOf(counts)) + delta
  {
    SumShift(names, name, CountOf(counts), CountOf(Added(counts, name, delta)));
  }

  /** A request that moves from q to q' while the tally moves by what q and q' contribute. */
  ghost predicate TallyFollows(t: Tally, t': Tally, q: Request, q': Request)
  {
    && t'.requestsTotal - t.requestsTotal == Entered()(q') - Entered()(q)
    && t'.inFlight - t.inFlight == Flying()(q') - Flying()(q)
    && t'.backendErrors - t.backendErrors == FailedOne()(q') - FailedOne()(q)
    && t'.hits - t.hits == HitOne()(q') - HitOne()(q)
    && t'.misses - t.misses == MissOne()(q') - MissOne()(q)
    && (forall kind: Kind :: Count(t'.strategies, kind) - Count(t.strategies, kind)
                             == ByKind(kind)(q') - ByKind(kind)(q))
    && (forall b :: Count(t'.backends, b) - Count(t.backends, b) == OnBackend(b)(q') - OnBackend(b)(q))
  }

  lemma TallyMoves(t: Tally, t': Tally, qs: seq<Request>, r: nat, q': Request)
    requires r < |qs| && Tallied(t, qs) && TallyFollows(t, t', qs[r], q')
    ensures Tallied(t', qs[r := q'])
  {
    SumUpdate(qs, r, q', Entered());
    SumUpdate(qs, r, q', Flying());
    SumUpdate(qs, r, q', FailedOne());
    SumUpdate(qs, r, q', HitOne());
    SumUpdate(qs, r, q', MissOne());
    forall kind: Kind ensures Count(t'.strategies, kind) == Sum(qs[r := q'], ByKind(kind)) {
      SumUpdate(qs, r, q', ByKind(kind));
    }
    forall b ensures Count(t'.backends, b) == Sum(qs[r := q'], OnBackend(b)) {
      SumUpdate(qs, r, q', OnBackend(b));
    }
  }

  lemma StageFollows(t: Tally, q: Request)
    requires q.Served?
    ensures TallyFollows(t, CountStage(t, q), q, q.(stage := NextStage(q.stage)))
  {
  }

  lemma StageTotals(t: Tally, names: seq<string>, qs: seq<Request>, r: nat)
    requires Books.Distinct(names) && r < |qs| && qs[r].Served? && qs[r].backend in names
    requires Totalled(t, names, qs)
    ensures Totalled(CountStage(t, qs[r]), names, qs[r := qs[r].(stage := NextStage(qs[r].stage))])
  {
    var q' := qs[r].(stage := NextStage(qs[r].stage));
    SumUpdate(qs, r, q', ByStrategy());
    SumUpdate(qs, r, q', ByBackend());
    if qs[r].stage.Chosen? {
      EveryKind(qs[r].kind);
      AddMovesSum(KINDS, t.strategies, qs[r].kind, 1);
    } else if qs[r].stage.StrategyCounted? {
      AddMovesSum(names, t.backends, qs[r].backend, 1);
    }
  }

  /** A request that starts or stops holding a counter moves that counter and no other. */
  lemma ChargeMoves(s: State, r: nat, q': Request, delta: int)
    requires Inv(s) && r < |s.requests| && ChargeOk(s, s.requests[r], q', delta)
    ensures var xs := Charge(s.instances, q'.i, q'.kind, q'.backend, delta);
            && |xs| == |s.instances| && (forall i :: 0 <= i < |xs| ==> xs[i].kind == s.instances[i].kind)
            && Charged(xs, s.requests[r := q'])
  {
    var xs := Charge(s.instances, q'.i, q'.kind, q'.backend, delta);
    forall i, c | 0 <= i < |xs| ensures Count(xs[i].loads, c) == Sum(s.requests[r := q'], HoldingOn(i, c)) {
      SumUpdate(s.requests, r, q', HoldingOn(i, c));
    }
  }

  lemma ChargeMovesTotal(s: State, r: nat, q': Request, delta: int)
    requires Inv(s) && r < |s.requests| && ChargeOk(s, s.requests[r], q', delta)
    ensures Sum(Charge(s.instances, q'.i, q'.kind, q'.backend, delta), LoadsOf(s.names))
            == Sum(s.requests[r := q'], Holding())
  {
    var xs := Charge(s.instances, q'.i, q'.kind, q'.backend, delta);
    SumUpdate(s.requests, r, q', Holding());
    if q'.kind.Tracks() {
      SumUpdate(s.instances, q'.i, xs[q'.i], LoadsOf(s.names));
      AddMovesSum(s.names, s.instances[q'.i].loads, q'.backend, delta);
    }
  }

  /** A bound request that takes a decision, or one with a decision that moves on. */
  ghost predicate ChargeOk(s: State, q: Request, q': Request, delta: int)
  {
    && q'.Served? && q'.i < |s.instances| && q'.backend in s.names
    && (q.Bound? || (q.Served? && q.i == q'.i && q.kind == q'.kind && q.backend == q'.backend))
    && (q'.kind.Tracks() ==> delta == One(Holds(q')) - One(Holds(q)))
  }

  lemma RequestsOk(s: State, s': State, r: nat)
    requires r < |s.requests| && |s'.requests| == |s.requests| && s'.requests == s.requests[r := s'.requests[r]]
    requires s'.names == s.names && |s'.instances| == |s.instances|
    requires forall i :: 0 <= i < |s.instances| ==> s'.instances[i].kind == s.instances[i].kind
    requires (forall q :: q in s.requests ==> RequestOk(s, q)) && RequestOk(s', s'.requests[r])
    ensures forall q :: q in s'.requests ==> RequestOk(s', q)
  {
    forall q | q in s'.requests ensures RequestOk(s', q) {
      assert q == s'.requests[r] || q in s.requests;
    }
  }

  lemma NoChargeMoves(s: State, r: nat, q': Request)
    requires Inv(s) && r < |s.requests| && Holds(q') == Holds(s.requests[r])
    requires Holds(q') ==> q'.i == s.requests[r].i && q'.backend == s.requests[r].backend
    ensures Charged(s.instances, s.requests[r := q'])
    ensures TotalLoad(s) == Sum(s.requests[r := q'], Holding())
  {
    SumUpdate(s.requests, r, q', Holding());
    forall i, b | 0 <= i < |s.instances|
      ensures Count(s.instances[i].loads, b) == Sum(s.requests[r := q'], HoldingOn(i, b))
    {
      SumUpdate(s.requests, r, q', HoldingOn(i, b));
    }
  }

  /** Request r moves, and tally and counters follow. */
  lemma Moves(s: State, s': State, r: nat)
    requires Inv(s) && r < |s.requests| && |s'.requests| == |s.requests|
    requires s'.requests == s.requests[r := s'.requests[r]]
    requires s'.names == s.names && s'.active == s.active && |s'.instances| == |s.instances|
    requires forall i :: 0 <= i < |s.instances| ==> s'.instances[i].kind == s.instances[i].kind
    requires RequestOk(s', s'.requests[r])
    requires TallyFollows(s.tally, s'.tally, s.requests[r], s'.requests[r])
    requires Totalled(s'.tally, s'.names, s'.requests)
    requires Charged(s'.instances, s'.requests) && TotalLoad(s') == Sum(s'.requests, Holding())
    ensures Inv(s')
  {
    RequestsOk(s, s', r);
    TallyMoves(s.tally, s'.tally, s.requests, r, s'.requests[r]);
  }

  lemma TotalsStay(t: Tally, t': Tally, names: seq<string>, qs: seq<Request>, r: nat, q': Request)
    requires r < |qs| && Totalled(t, names, qs)
    requires t'.strategies == t.strategies && t'.backends == t.backends
    requires ByStrategy()(q') == ByStrategy()(qs[r]) && ByBackend()(q') == ByBackend()(qs[r])
    ensures Totalled(t', names, qs[r := q'])
  {
    SumUpdate(qs, r, q', ByStrategy());
    SumUpdate(qs, r, q', ByBackend());
  }

  lemma ServedStepKeeps(s: State, r: nat)
    requires Inv(s) && r < |s.requests| && s.requests[r].Served?
    ensures Inv(StepRequest(s, r))
  {
    var q := s.requests[r];
    var q' := q.(stage := NextStage(q.stage));
    assert RequestOk(s, q);
    StageFollows(s.tally, q);
    StageTotals(s.tally, s.names, s.requests, r);
    if q.stage.Left? {
      ChargeMoves(s, r, q', -1);
      ChargeMovesTotal(s, r, q', -1);
    } else {
      NoChargeMoves(s, r, q');
    }
    Moves(s, StepRequest(s, r), r);
  }

  /** The steps before a decision, and the backend's reply. */
  lemma EarlyStepKeeps(s: State, s': State, r: nat)
    requires Inv(s) && r < |s.requests| && |s'.requests| == |s.requests|
    requires s' == s.(requests := s.requests[r := s'.requests[r]], tally := s'.tally)
    requires RequestOk(s', s'.requests[r])
    requires TallyFollows(s.tally, s'.tally, s.requests[r], s'.requests[r])
    requires s'.tally.strategies == s.tally.strategies && s'.tally.backends == s.tally.backends
    requires s.requests[r].Served? ==>
               s'.requests[r].Served? && s'.requests[r] == s.requests[r].(stage := s'.requests[r].stage)
               && 4 <= s.requests[r].stage.Rank() < 9 && 4 <= s'.requests[r].stage.Rank() < 9
    requires !s.requests[r].Served? ==> !s'.requests[r].Served?
    ensures Inv(s')
  {
    var q' := s'.requests[r];
    TotalsStay(s.tally, s'.tally, s.names, s.requests, r, q');
    NoChargeMoves(s, r, q');
    Moves(s, s', r);
  }

  lemma ChooseKeeps(s: State, r: nat, b: string, hit: bool)
    requires Inv(s)
    ensures Inv(Apply(s, Choose(r, b, hit)))
  {
    var s' := Apply(s, Choose(r, b, hit));
    if s' != s {
      var q, q' := s.requests[r], s'.requests[r];
      assert RequestOk(s, q);
      ChargeMoves(s, r, q', 1);
      ChargeMovesTotal(s, r, q', 1);
      TotalsStay(s.tally, s.tally, s.names, s.requests, r, q');
      Moves(s, s', r);
    }
  }

  lemma CreateKeeps(s: State, kind: Kind)
    requires Inv(s)
    ensures Inv(Apply(s, Create(kind)))
  {
    var s' := Apply(s, Create(kind));
    SumAppend(s.instances, Instance(kind, map[]), LoadsOf(s.names));
    NoLoads(s.names);
    forall b ensures Sum(s.requests, HoldingOn(|s.instances|, b)) == 0 {
      forall q | q in s.requests ensures HoldingOn(|s.instances|, b)(q) == 0 {
        assert RequestOk(s, q);
      }
      SumZeroIff(s.requests, HoldingOn(|s.instances|, b));
    }
    forall q | q in s'.requests ensures RequestOk(s', q) {
      assert RequestOk(s, q);
    }
  }

  lemma NoLoads<K>(names: seq<K>)
    ensures Sum(names, CountOf<K>(map[])) == 0
  {
    SumZeroIff(names, CountOf<K>(map[]));
  }

  lemma ArriveKeeps(s: State)
    requires Inv(s)
    ensures Inv(Apply(s, Arrive))
  {
    var qs := s.requests + [Arrived];
    forall f: Request -> int | f(Arrived) == 0 ensures Sum(qs, f) == Sum(s.requests, f) {
      SumAppend(s.requests, Arrived, f);
    }
    assert Entered()(Arrived) == Flying()(Arrived) == FailedOne()(Arrived) == HitOne()(Arrived) == 0;
    assert MissOne()(Arrived) == ByStrategy()(Arrived) == ByBackend()(Arrived) == Holding()(Arrived) == 0;
    assert forall kind: Kind :: ByKind(kind)(Arrived) == 0;
    assert forall b :: OnBackend(b)(Arrived) == 0;
    assert forall i, b :: HoldingOn(i, b)(Arrived) == 0;
  }

  lemma StepKeeps(s: State, r: nat)
    requires Inv(s) && r < |s.requests|
    ensures Inv(StepRequest(s, r))
  {
    if s.requests[r].Served? {
      ServedStepKeeps(s, r);
    } else if s.requests[r].Arrived? || s.requests[r].Accepted? {
      EarlyStepKeeps(s, StepRequest(s, r), r);
    }
  }

  lemma ReadKeeps(s: State, r: nat, q': Request)
    requires Inv(s) && r < |s.requests| && s.requests[r].Bound?
    requires q'.Refused? || (q'.Bound? && q'.i == s.requests[r].i && q'.kind == s.requests[r].kind)
    ensures Inv(s.(requests := s.requests[r := q']))
  {
    assert RequestOk(s, s.requests[r]);
    EarlyStepKeeps(s, s.(requests := s.requests[r := q']), r);
  }

  lemma ReplyKeeps(s: State, r: nat, ok: bool)
    requires Inv(s) && r < |s.requests| && s.requests[r].Served? && s.requests[r].stage.InFlight?
    ensures Inv(Apply(s, Reply(r, ok)))
  {
    assert RequestOk(s, s.requests[r]);
    EarlyStepKeeps(s, Apply(s, Reply(r, ok)), r);
  }

  lemma OutsideKeeps(s: State, a: Action)
    requires Inv(s) && (a.Install? || a.Probe?)
    ensures Inv(Apply(s, a))
  {
    forall q | q in s.requests ensures RequestOk(Apply(s, a), q) {
      assert RequestOk(s, q);
    }
  }

  lemma ApplyKeeps(s: State, a: Action)
    requires Inv(s)
    ensures Inv(Apply(s, a))
  {
    match a
    case Arrive => ArriveKeeps(s);
    case Create(kind) => CreateKeeps(s, kind);
    case Install(_) => OutsideKeeps(s, a);
    case Probe(_, _) => OutsideKeeps(s, a);
    case Choose(r, b, hit) => ChooseKeeps(s, r, b, hit);
    case Step(r) =>
      if r < |s.requests| {
        StepKeeps(s, r);
      }
    case Look(r, b) =>
      if Apply(s, a) != s {
        ReadKeeps(s, r, s.requests[r].(up := s.requests[r].up + {b}));
      }
    case Refuse(r) =>
      if Apply(s, a) != s {
        ReadKeeps(s, r, Refused);
      }
    case Reply(r, ok) =>
      if Apply(s, a) != s {
        ReplyKeeps(s, r, ok);
      }
  }

  lemma ZeroTallied(names: seq<string>)
    ensures Tallied(ZERO, []) && Totalled(ZERO, names, [])
  {
    NoLoads<string>(names);
    NoLoads<Kind>(KINDS);
  }

  lemma FirstLoad(names: seq<string>)
    ensures Sum([Instance(RoundRobin, map[])], LoadsOf(names)) == 0
  {
    NoLoads<string>(names);
    assert [Instance(RoundRobin, map[])] == [] + [Instance(RoundRobin, map[])];
    SumAppend([], Instance(RoundRobin, map[]), LoadsOf(names));
  }

  lemma StartedInv(names: seq<string>)
    requires Books.Distinct(names)
    ensures Inv(Started(names))
  {
    ZeroTallied(names);
    FirstLoad(names);
  }

  lemma {:induction false} ExecKeeps(names: seq<string>, schedule: seq<Action>)
    requires Books.Distinct(names)
    ensures Inv(Exec(Started(names), schedule))
  {
    if schedule == [] {
      StartedInv(names);
    } else {
      ExecKeeps(names, schedule[..|schedule| - 1]);
      ApplyKeeps(Exec(Started(names), schedule[..|schedule| - 1]), schedule[|schedule| - 1]);
    }
  }

  // ----- What the metrics say ------------------------------------------------------------

  predicate Over(q: Request)
  {
    q.Refused? || (q.Served? && q.stage.Released?)
  }

  function ServedBy(kind: Kind): Request -> int { (q: Request) => One(q.Served? && q.kind == kind) }

  function ServedOn(b: string): Request -> int { (q: Request) => One(q.Served? && q.backend == b) }

  lemma OverCounts(qs: seq<Request>)
    requires forall q :: q in qs ==> Over(q)
    ensures Sum(qs, Entered()) == Sum(qs, TurnedAway()) + Sum(qs, ByBackend())
    ensures Sum(qs, ByStrategy()) == Sum(qs, ByBackend())
    ensures Sum(qs, HitOne()) + Sum(qs, MissOne()) == Sum(qs, ByKind(KVAware))
    ensures Sum(qs, Flying()) == 0
  {
    SumPlus(qs, TurnedAway(), ByBackend(), Entered());
    SumAgree(qs, ByStrategy(), ByBackend());
    SumPlus(qs, HitOne(), MissOne(), ByKind(KVAware));
    SumZeroIff(qs, Flying());
  }

  lemma OverHoldsNothing(qs: seq<Request>, i: nat, b: string)
    requires forall q :: q in qs ==> Over(q)
    ensures Sum(qs, HoldingOn(i, b)) == 0
  {
    SumZeroIff(qs, HoldingOn(i, b));
  }

  /** Once every request is over, whatever was switched, probed and interleaved: requests are
      refusals plus backend selections, as many strategy as backend selections, as many cache
      hits and misses as kv_aware selections, nothing in flight, and every counter of every
      instance, replaced ones included, is back at zero. */
  lemma QuiescentAccounting(names: seq<string>, schedule: seq<Action>)
    requires Books.Distinct(names)
    requires forall q :: q in Exec(Started(names), schedule).requests ==> Over(q)
    ensures var s := Exec(Started(names), schedule);
            && s.tally.requestsTotal == Sum(s.requests, TurnedAway()) + Sum(names, CountOf(s.tally.backends))
            && Sum(KINDS, CountOf(s.tally.strategies)) == Sum(names, CountOf(s.tally.backends))
            && s.tally.hits + s.tally.misses == Count(s.tally.strategies, KVAware)
            && s.tally.inFlight == 0
            && forall i, b :: 0 <= i < |s.instances| ==> Count(s.instances[i].loads, b) == 0
  {
    ExecKeeps(names, schedule);
    ExecNames(names, schedule);
    var s := Exec(Started(names), schedule);
    OverCounts(s.requests);
    forall i, b | 0 <= i < |s.instances| ensures Count(s.instances[i].loads, b) == 0 {
      OverHoldsNothing(s.requests, i, b);
    }
  }

  lemma {:induction false} ExecNames(names: seq<string>, schedule: seq<Action>)
    ensures Exec(Started(names), schedule).names == names
  {
    if schedule != [] {
      ExecNames(names, schedule[..|schedule| - 1]);
    }
  }

  /** And each single count is right: every strategy and every backend is counted once for each
      request it served, and errors once for each failed call. */
  lemma QuiescentCounts(names: seq<string>, schedule: seq<Action>, kind: Kind, b: string)
    requires Books.Distinct(names)
    requires forall q :: q in Exec(Started(names), schedule).requests ==> Over(q)
    ensures var s := Exec(Started(names), schedule);
            && Count(s.tally.strategies, kind) == Sum(s.requests, ServedBy(kind))
            && Count(s.tally.backends, b) == Sum(s.requests, ServedOn(b))
            && s.tally.backendErrors == Sum(s.requests, FailedOne())
  {
    ExecKeeps(names, schedule);
    OverCountsEach(Exec(Started(names), schedule).requests, kind, b);
  }

  lemma OverCountsEach(qs: seq<Request>, kind: Kind, b: string)
    requires forall q :: q in qs ==> Over(q)
    ensures Sum(qs, ByKind(kind)) == Sum(qs, ServedBy(kind)) && Sum(qs, OnBackend(b)) == Sum(qs, ServedOn(b))
  {
    SumAgree(qs, ByKind(kind), ServedBy(kind));
    SumAgree(qs, OnBackend(b), ServedOn(b));
  }

  function FlyingUntracked(): Request -> int
  {
    (q: Request) => One(Reached(q, 4) && !Reached(q, 8) && !q.kind.Tracks())
  }

  /** In every state of every run the in-flight gauge is at most the sum of all counters of all
      instances plus the in-flight requests of strategies without counters; with load-tracking
      strategies only, at most the counters: a decision is charged before the gauge goes up and
      released after it went down. */
  lemma InFlightWithinLoads(names: seq<string>, schedule: seq<Action>)
    requires Books.Distinct(names)
    ensures var s := Exec(Started(names), schedule);
            && 0 <= s.tally.inFlight <= TotalLoad(s) + Sum(s.requests, FlyingUntracked())
            && ((forall q :: q in s.requests && q.Served? ==> q.kind.Tracks()) ==> s.tally.inFlight <= TotalLoad(s))
  {
    ExecKeeps(names, schedule);
    FlyingHolds(Exec(Started(names), schedule).requests);
  }

  function HoldingOrUntracked(): Request -> int { (q: Request) => Holding()(q) + FlyingUntracked()(q) }

  lemma FlyingHolds(qs: seq<Request>)
    ensures 0 <= Sum(qs, Flying()) <= Sum(qs, Holding()) + Sum(qs, FlyingUntracked())
    ensures (forall q :: q in qs && q.Served? ==> q.kind.Tracks()) ==> Sum(qs, FlyingUntracked()) == 0
  {
    forall q | q in qs ensures Flying()(q) <= HoldingOrUntracked()(q) {
      assert HoldingOrUntracked()(q) == One(Holds(q)) + FlyingUntracked()(q);
    }
    SumLe(qs, Flying(), HoldingOrUntracked());
    SumPlus(qs, Holding(), FlyingUntracked(), HoldingOrUntracked());
    SumNonNegative(qs, Flying());
    SumZeroIff(qs, FlyingUntracked());
  }

  lemma StagesAreOrdered(qs: seq<Request>)
    ensures Sum(qs, Flying()) <= Sum(qs, ByBackend()) <= Sum(qs, ByStrategy())
    ensures Sum(qs, FailedOne()) <= Sum(qs, ByBackend())
  {
    SumLe(qs, Flying(), ByBackend());
    SumLe(qs, ByBackend(), ByStrategy());
    SumLe(qs, FailedOne(), ByBackend());
  }

  lemma OutcomesAreOrdered(qs: seq<Request>)
    ensures Sum(qs, ByStrategy()) + Sum(qs, TurnedAway()) <= Sum(qs, Entered())
    ensures Sum(qs, HitOne()) + Sum(qs, MissOne()) <= Sum(qs, ByKind(KVAware))
  {
    var either := (q: Request) => ByStrategy()(q) + TurnedAway()(q);
    SumPlus(qs, ByStrategy(), TurnedAway(), either);
    SumLe(qs, either, Entered());
    var known := (q: Request) => HitOne()(q) + MissOne()(q);
    SumPlus(qs, HitOne(), MissOne(), known);
    SumLe(qs, known, ByKind(KVAware));
  }

  /** In every state a reader finds the counts in the order in which a request raises them. */
  lemma CountsAreOrdered(names: seq<string>, schedule: seq<Action>)
    requires Books.Distinct(names)
    ensures var s := Exec(Started(names), schedule);
            var strategies, backends := Sum(KINDS, CountOf(s.tally.strategies)), Sum(names, CountOf(s.tally.backends));
            && s.tally.inFlight <= backends && s.tally.backendErrors <= backends <= strategies
            && strategies + Sum(s.requests, TurnedAway()) <= s.tally.requestsTotal
            && s.tally.hits + s.tally.misses <= Count(s.tally.strategies, KVAware)
  {
    ExecKeeps(names, schedule);
    ExecNames(names, schedule);
    StagesAreOrdered(Exec(Started(names), schedule).requests);
    OutcomesAreOrdered(Exec(Started(names), schedule).requests);
  }

  /** Not bound yet, or has neither read b healthy nor chosen it. */
  predicate Avoids(q: Request, b: string)
  {
    match q
    case Bound(_, _, up) => b !in up
    case Served(_, _, backend, _, _) => backend != b
    case _ => true
  }

  /** From a state where b is unhealthy, until a probe finds it healthy again, no request that
      arrives after that state is served by b, whatever the strategy and however often it is
      switched. */
  lemma {:induction false} UnhealthyNeverServes(s: State, schedule: seq<Action>, b: string, r: nat)
    requires b !in s.healthy && |s.requests| <= r
    requires forall a :: a in schedule ==> a != Probe(b, true)
    ensures var s' := Exec(s, schedule);
            && b !in s'.healthy && |s.requests| <= |s'.requests|
            && (r < |s'.requests| ==> Avoids(s'.requests[r], b))
  {
    if schedule != [] {
      var n := |schedule| - 1;
      assert forall a :: a in schedule[..n] ==> a in schedule;
      UnhealthyNeverServes(s, schedule[..n], b, r);
      assert schedule[n] in schedule;
    }
  }

  /** In particular once a failed call has marked its backend, before it is even counted. */
  lemma FailureKeepsAway(s: State, r: nat, schedule: seq<Action>, later: nat)
    requires r < |s.requests| && s.requests[r].Served? && s.requests[r].stage == Timed(false)
    requires forall a :: a in schedule ==> a != Probe(s.requests[r].backend, true)
    requires |s.requests| <= later
    ensures var s' := Exec(Apply(s, Step(r)), schedule);
            later < |s'.requests| ==> Avoids(s'.requests[later], s.requests[r].backend)
  {
    UnhealthyNeverServes(Apply(s, Step(r)), schedule, s.requests[r].backend, later);
  }

  // ----- Which instance a request runs on ------------------------------------------------

  predicate OnlyOn(q: Request, i: nat, kind: Kind)
  {
    match q
    case Bound(j, k, _) => j == i && k == kind
    case Served(j, k, _, _, _) => j == i && k == kind
    case _ => true
  }

  lemma StaysOn(s: State, a: Action, i: nat, kind: Kind, r: nat)
    requires s.active == i < |s.instances| && s.instances[i].kind == kind && !a.Install?
    requires r < |s.requests| ==> OnlyOn(s.requests[r], i, kind)
    ensures var s' := Apply(s, a);
            && s'.active == i < |s'.instances| && s'.instances[i].kind == kind
            && (r < |s'.requests| ==> OnlyOn(s'.requests[r], i, kind))
  {
  }

  lemma {:induction false} BindsActive(s: State, schedule: seq<Action>, i: nat, kind: Kind, r: nat)
    requires s.active == i < |s.instances| && s.instances[i].kind == kind
    requires forall a :: a in schedule ==> !a.Install?
    requires r < |s.requests| ==> OnlyOn(s.requests[r], i, kind)
    ensures var s' := Exec(s, schedule);
            && s'.active == i < |s'.instances| && s'.instances[i].kind == kind
            && (r < |s'.requests| ==> OnlyOn(s'.requests[r], i, kind))
  {
    if schedule != [] {
      var n := |schedule| - 1;
      assert forall a :: a in schedule[..n] ==> a in schedule;
      BindsActive(s, schedule[..n], i, kind, r);
      assert schedule[n] in schedule;
      StaysOn(Exec(s, schedule[..n]), schedule[n], i, kind, r);
    }
  }

  /** From the moment an instance is installed until the next switch, every request that had not
      read the strategy before runs on it. */
  lemma InstalledServes(s: State, schedule: seq<Action>, i: nat, r: nat)
    requires i < |s.instances| && forall a :: a in schedule ==> !a.Install?
    requires r < |s.requests| ==> s.requests[r].Arrived? || s.requests[r].Accepted?
    ensures var s' := Exec(Apply(s, Install(i)), schedule);
            r < |s'.requests| ==> OnlyOn(s'.requests[r], i, s.instances[i].kind)
  {
    BindsActive(Apply(s, Install(i)), schedule, i, s.instances[i].kind, r);
  }

  /** And until the first switch they run on round_robin. */
  lemma RoundRobinServesFirst(names: seq<string>, schedule: seq<Action>, r: nat)
    requires forall a :: a in schedule ==> !a.Install?
    ensures var s' := Exec(Started(names), schedule);
            r < |s'.requests| ==> OnlyOn(s'.requests[r], 0, RoundRobin)
  {
    BindsActive(Started(names), schedule, 0, RoundRobin, r);
  }

  /** A probe or a failure sets the health of one backend and nothing else. */
  lemma ProbeSetsHealth(s: State, b: string, up: bool, d: string)
    ensures var r := Apply(s, Probe(b, up));
            && (d in r.healthy <==> if d == b then up else d in s.healthy)
            && (r.names, r.instances, r.active) == (s.names, s.instances, s.active)
            && (r.tally, r.requests) == (s.tally, s.requests)
  {
  }

  /** A created instance is of its kind, with every counter at zero, and not yet installed. */
  lemma CreateAddsInstance(s: State, kind: Kind, b: string)
    ensures var r := Apply(s, Create(kind));
            && |r.instances| == |s.instances| + 1 && r.instances[..|s.instances|] == s.instances
            && r.instances[|s.instances|].kind == kind && Count(r.instances[|s.instances|].loads, b) == 0
            && (r.names, r.healthy, r.active, r.tally, r.requests)
               == (s.names, s.healthy, s.active, s.tally, s.requests)
  {
  }

  // ----- One request from its arrival to its end -----------------------------------------

  lemma Then(s: State, schedule: seq<Action>, m: State, a: Action) returns (longer: seq<Action>)
    requires Exec(s, schedule) == m
    ensures Exec(s, longer) == Apply(m, a)
  {
    longer := schedule + [a];
    assert longer[..|schedule|] == schedule;
  }

  /** The counters of all instances after `delta` on backend b's of instance i, if its strategy keeps
      counters. */
  ghost predicate LoadMoved(xs: seq<Instance>, ys: seq<Instance>, i: nat, b: string, delta: int)
    requires i < |xs|
  {
    && |ys| == |xs| && (forall j :: 0 <= j < |xs| ==> ys[j].kind == xs[j].kind)
    && forall j, c :: 0 <= j < |xs| ==>
         Count(ys[j].loads, c) == Count(xs[j].loads, c)
           + if j == i && c == b && (xs[i].kind.LeastPending? || xs[i].kind.KVAware?) then delta else 0
  }

  /** Only the tally and request q's stage differ. */
  ghost predicate OnlyCounted(s: State, r: State, q: nat, stage: Stage)
    requires q < |s.requests| && s.requests[q].Served?
  {
    r == s.(tally := r.tally, requests := s.requests[q := s.requests[q].(stage := stage)])
  }

  /** The strategy and the backend of a decision are counted. */
  lemma IsRecorded(s: State, q: nat) returns (schedule: seq<Action>)
    requires q < |s.requests| && s.requests[q].Served? && s.requests[q].stage.Chosen?
    ensures var r := Exec(s, schedule);
            && OnlyCounted(s, r, q, BackendCounted)
            && Incremented(s.tally.strategies, r.tally.strategies, s.requests[q].kind)
            && Incremented(s.tally.backends, r.tally.backends, s.requests[q].backend)
            && r.tally == s.tally.(strategies := r.tally.strategies, backends := r.tally.backends)
  {
    schedule := Then(s, [], s, Step(q));
    var m := Apply(s, Step(q));
    schedule := Then(s, schedule, m, Step(q));
  }

  /** Then whether it hit, under kv_aware, and the gauge goes up. */
  lemma IsLaunched(s: State, q: nat) returns (schedule: seq<Action>)
    requires q < |s.requests| && s.requests[q].Served? && s.requests[q].stage.BackendCounted?
    ensures var r := Exec(s, schedule);
            var x := s.requests[q];
            && OnlyCounted(s, r, q, InFlight)
            && r.tally == s.tally.(inFlight := s.tally.inFlight + 1,
                                   hits := s.tally.hits + (if x.kind.KVAware? && x.hit then 1 else 0),
                                   misses := s.tally.misses + (if x.kind.KVAware? && !x.hit then 1 else 0))
  {
    schedule := Then(s, [], s, Step(q));
    var m := Apply(s, Step(q));
    schedule := Then(s, schedule, m, Step(q));
  }

  lemma {:induction false} ExecConcat(s: State, xs: seq<Action>, ys: seq<Action>)
    ensures Exec(s, xs + ys) == Exec(Exec(s, xs), ys)
  {
    if ys == [] {
      assert xs + ys == xs;
    } else {
      assert (xs + ys)[..|xs + ys| - 1] == xs + ys[..|ys| - 1];
      ExecConcat(s, xs, ys[..|ys| - 1]);
    }
  }

  /** An accepted request on a healthy backend b is counted once in the total, for its strategy and
      for b, as a hit or miss under kv_aware only; and while it is out, the gauge is one higher and
      so is b's counter, if the strategy keeps counters. */
  lemma GoesOut(s: State, b: string, hit: bool) returns (schedule: seq<Action>)
    requires s.active < |s.instances| && b in s.names && b in s.healthy
    requires hit ==> s.instances[s.active].kind.KVAware?
    ensures var r := Exec(s, schedule);
            var kind := s.instances[s.active].kind;
            && r.requests == s.requests + [Served(s.active, kind, b, hit, InFlight)]
            && (r.names, r.healthy, r.active) == (s.names, s.healthy, s.active)
            && LoadMoved(s.instances, r.instances, s.active, b, 1)
            && r.tally.requestsTotal == s.tally.requestsTotal + 1 && r.tally.inFlight == s.tally.inFlight + 1
            && r.tally.backendErrors == s.tally.backendErrors
            && r.tally.hits == s.tally.hits + (if hit then 1 else 0)
            && r.tally.misses == s.tally.misses + (if kind.KVAware? && !hit then 1 else 0)
            && Incremented(s.tally.strategies, r.tally.strategies, kind)
            && Incremented(s.tally.backends, r.tally.backends, b)
  {
    var q := |s.requests|;
    var first, chosen := GetsDecision(s, b, hit);
    var second := IsRecorded(chosen, q);
    var third := IsLaunched(Exec(chosen, second), q);
    ExecConcat(chosen, second, third);
    ExecConcat(s, first, second + third);
    schedule := first + (second + third);
  }

  lemma GetsDecision(s: State, b: string, hit: bool) returns (schedule: seq<Action>, chosen: State)
    requires s.active < |s.instances| && b in s.names && b in s.healthy
    requires hit ==> s.instances[s.active].kind.KVAware?
    ensures chosen == Exec(s, schedule)
    ensures var kind := s.instances[s.active].kind;
            && chosen.requests == s.requests + [Served(s.active, kind, b, hit, Chosen)]
            && (chosen.names, chosen.healthy, chosen.active) == (s.names, s.healthy, s.active)
            && LoadMoved(s.instances, chosen.instances, s.active, b, 1)
            && chosen.tally == s.tally.(requestsTotal := s.tally.requestsTotal + 1)
  {
    var q := |s.requests|;
    var kind := s.instances[s.active].kind;
    schedule := Then(s, [], s, Arrive);
    var m := Apply(s, Arrive);
    schedule := Then(s, schedule, m, Step(q));
    m := Apply(m, Step(q));
    assert m.requests == s.requests + [Accepted];
    schedule := Then(s, schedule, m, Step(q));
    m := Apply(m, Step(q));
    assert m.requests == s.requests + [Bound(s.active, kind, {})];
    schedule := Then(s, schedule, m, Look(q, b));
    m := Apply(m, Look(q, b));
    assert m.requests == s.requests + [Bound(s.active, kind, {} + {b})];
    schedule := Then(s, schedule, m, Choose(q, b, hit));
    m := Apply(m, Choose(q, b, hit));
    assert m.requests == s.requests + [Served(s.active, kind, b, hit, Chosen)];
    chosen := m;
  }

  /** When the reply is in, the gauge goes down and b's counter is given back; a failure has been
      counted once, and has marked b unhealthy. */
  lemma ComesBack(s: State, q: nat, ok: bool) returns (schedule: seq<Action>)
    requires q < |s.requests| && s.requests[q].Served? && s.requests[q].stage.InFlight?
    requires s.requests[q].i < |s.instances| && s.instances[s.requests[q].i].kind == s.requests[q].kind
    ensures var r := Exec(s, schedule);
            var b := s.requests[q].backend;
            && r.requests == s.requests[q := s.requests[q].(stage := Released(ok))]
            && (r.names, r.active) == (s.names, s.active)
            && r.healthy == (if ok then s.healthy else s.healthy - {b})
            && LoadMoved(s.instances, r.instances, s.requests[q].i, b, -1)
            && r.tally == s.tally.(inFlight := s.tally.inFlight - 1,
                                   backendErrors := s.tally.backendErrors + if ok then 0 else 1)
  {
    var x := s.requests[q];
    var replied := Apply(s, Reply(q, ok));
    var first := Then(s, [], s, Reply(q, ok));
    var second := LeavesFlight(replied, q, ok);
    var left := Exec(replied, second);
    var third := Then(left, [], left, Step(q));
    ExecConcat(replied, second, third);
    ExecConcat(s, first, second + third);
    schedule := first + (second + third);
  }

  lemma LeavesFlight(s: State, q: nat, ok: bool) returns (schedule: seq<Action>)
    requires q < |s.requests| && s.requests[q].Served? && s.requests[q].stage == Timed(ok)
    ensures var r := Exec(s, schedule);
            && r == s.(tally := s.tally.(inFlight := s.tally.inFlight - 1,
                                         backendErrors := s.tally.backendErrors + if ok then 0 else 1),
                       healthy := if ok then s.healthy else s.healthy - {s.requests[q].backend},
                       requests := s.requests[q := s.requests[q].(stage := Left(ok))])
  {
    var m := s;
    schedule := [];
    if !ok {
      schedule := Then(s, schedule, m, Step(q));
      m := Apply(m, Step(q));
      assert m.requests[q] == s.requests[q].(stage := Marked);
      schedule := Then(s, schedule, m, Step(q));
      m := Apply(m, Step(q));
      assert m.requests[q] == s.requests[q].(stage := ErrorCounted);
    }
    schedule := Then(s, schedule, m, Step(q));
    m := Apply(m, Step(q));
  }

  /** A refused request is counted in the total and nowhere else. */
  lemma IsTurnedAway(s: State) returns (schedule: seq<Action>)
    requires s.active < |s.instances|
    ensures Exec(s, schedule) == s.(requests := s.requests + [Refused],
                                    tally := s.tally.(requestsTotal := s.tally.requestsTotal + 1))
  {
    var q := |s.requests|;
    schedule := Then(s, [], s, Arrive);
    var m := Apply(s, Arrive);
    schedule := Then(s, schedule, m, Step(q));
    m := Apply(m, Step(q));
    assert m.requests == s.requests + [Accepted];
    schedule := Then(s, schedule, m, Step(q));
    m := Apply(m, Step(q));
    assert m.requests == s.requests + [Bound(s.active, s.instances[s.active].kind, {})];
    schedule := Then(s, schedule, m, Refuse(q));
    m := Apply(m, Refuse(q));
    assert m.requests == s.requests + [Refused];
  }
}
