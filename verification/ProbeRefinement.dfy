/** Concurrent kv_aware Selects whose affinity never matches are concurrent least_pending Selects:
    the same run without the steps that looked for the preferred backend. */
module ProbeRefinement {
  import opened Sums
  import opened SelectMachine

  /** The least_pending Select that this one is, as long as it finds no match. */
  function Plain(th: Thread): Thread
  {
    match th
    case Arrived(cost, _) => Arrived(cost, None)
    case Probing(snap, cost, _, _) => Ticketing(snap, cost)
    case _ => th
  }

  function PlainState(s: State): (r: State)
    ensures |r.threads| == |s.threads|
  {
    s.(threads := seq(|s.threads|, i requires 0 <= i < |s.threads| => Plain(s.threads[i])))
  }

  ghost predicate NoMatch(s: State)
  {
    forall th :: th in s.threads ==> !th.Matched?
  }

  /** At no point of the run has a Select matched its preferred backend. */
  ghost predicate NeverMatches(s: State, schedule: seq<Action>)
  {
    && NoMatch(Exec(s, schedule))
    && (schedule != [] ==> NeverMatches(s, schedule[..|schedule| - 1]))
  }

  /** What an action in state r is for least_pending: a Select starts without a hint, and a step of
      the search is no step at all. */
  function PlainAction(r: State, a: Action): seq<Action>
  {
    match a
    case Spawn(estimated, _) => [Spawn(estimated, None)]
    case Step(t) => if t < |r.threads| && r.threads[t].Probing? then [] else [a]
    case _ => [a]
  }

  function PlainSchedule(s: State, schedule: seq<Action>): seq<Action>
  {
    if schedule == [] then []
    else
      var n := |schedule| - 1;
      PlainSchedule(s, schedule[..n]) + PlainAction(Exec(s, schedule[..n]), schedule[n])
  }

  lemma SearchIsNoStep(s: State, t: nat)
    requires t < |s.threads| && s.threads[t].Probing? && NoMatch(Apply(s, Step(t)))
    ensures PlainState(Apply(s, Step(t))) == PlainState(s)
  {
    var s' := Apply(s, Step(t));
    assert s'.threads[t] in s'.threads;
  }

  lemma OtherStepsAgree(s: State, t: nat)
    requires t < |s.threads| && !s.threads[t].Probing? && !s.threads[t].Matched?
    ensures Apply(PlainState(s), Step(t)) == PlainState(Apply(s, Step(t)))
  {
    var th := s.threads[t];
    var (book, th') := Advance(s.book, s.healthy, th);
    assert Advance(s.book, s.healthy, Plain(th)) == (book, Plain(th'));
    assert Apply(PlainState(s), Step(t)).threads == PlainState(Apply(s, Step(t))).threads;
  }

  lemma ActionsAgree(s: State, a: Action)
    requires !a.Step?
    ensures PlainAction(s, a) != [] && Apply(PlainState(s), PlainAction(s, a)[0]) == PlainState(Apply(s, a))
  {
    assert Apply(PlainState(s), PlainAction(s, a)[0]).threads == PlainState(Apply(s, a)).threads;
  }

  lemma PlainStep(s: State, a: Action)
    requires NoMatch(s) && NoMatch(Apply(s, a))
    ensures Exec(PlainState(s), PlainAction(s, a)) == PlainState(Apply(s, a))
  {
    if a.Step? && a.t < |s.threads| && s.threads[a.t].Probing? {
      SearchIsNoStep(s, a.t);
    } else {
      ExecOne(PlainState(s), PlainAction(s, a)[0]);
      if !a.Step? {
        ActionsAgree(s, a);
      } else if a.t < |s.threads| {
        assert s.threads[a.t] in s.threads;
        OtherStepsAgree(s, a.t);
      }
    }
  }

  /** For every schedule in which no Select matches, the run without hints and without the search
      steps has the same books and health in the end, and every Select is where it is, one that is
      still searching being about to take its ticket. */
  lemma {:induction false} MissingSelectsAreLeastPending(s: State, schedule: seq<Action>)
    requires NeverMatches(s, schedule)
    ensures Exec(PlainState(s), PlainSchedule(s, schedule)) == PlainState(Exec(s, schedule))
    ensures forall a :: a in PlainSchedule(s, schedule) && a.Spawn? ==> a.hint.None?
  {
    if schedule != [] {
      var n := |schedule| - 1;
      var r := Exec(s, schedule[..n]);
      MissingSelectsAreLeastPending(s, schedule[..n]);
      PlainStep(r, schedule[n]);
      ExecConcat(PlainState(s), PlainSchedule(s, schedule[..n]), PlainAction(r, schedule[n]));
    }
  }
}
