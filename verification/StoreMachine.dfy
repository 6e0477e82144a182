/** Concurrent use of the in-memory store: a lookup reads, checks the clock and deletes in three
    separate steps, and the delete does not look at the entry again. */
module StoreMachine {
  import opened Sums
  import opened GoText
  import opened Cache

  /** The mutations of the map, in the order of the critical sections that made them. */
  datatype Mutation = Put(key: string, entry: Entry) | Delete(key: string)

  /** A lookup; `at` is how many mutations had happened when it read, `checked` the time it
      compared with the expiry. */
  datatype Thread =
    | Started(key: string)
    | Read(key: string, entry: Entry, at: nat)
    | Expired(key: string, entry: Entry, at: nat)
    | Hit(key: string, entry: Entry, at: nat, checked: int)
    | Missed

  datatype State = State(entries: map<string, Entry>, history: seq<Mutation>, clock: int, threads: seq<Thread>)

  datatype Action =
    | Store(key: string, backend: string, ttl: int)
    | Look(key: string)
    | Step(t: nat)
    | Tick(elapsed: nat)

  function Advance(s: State, th: Thread): (State, Thread)
  {
    match th
    case Started(key) =>
      if key == "" || key !in s.entries then (s, Missed)
      else (s, Read(key, s.entries[key], |s.history|))
    case Read(key, entry, at) =>
      if s.clock > entry.expiresAt then (s, Expired(key, entry, at)) else (s, Hit(key, entry, at, s.clock))
    case Expired(key, _, _) =>
      (s.(entries := s.entries - {key}, history := s.history + [Delete(key)]), Missed)
    case _ => (s, th)
  }

  function Apply(s: State, a: Action): State
  {
    match a
    case Store(key, backend, ttl) =>
      var w := Cache.Remember(key, backend, ttl, s.clock);
      if !w.Effective() then s
      else
        var k, e := TrimSpace(key), Entry(TrimSpace(backend), w.Expiry());
        s.(entries := s.entries[k := e], history := s.history + [Put(k, e)])
    case Look(key) => s.(threads := s.threads + [Started(TrimSpace(key))])
    case Step(t) =>
      if t < |s.threads| then
        var (s', th) := Advance(s, s.threads[t]);
        s'.(threads := s.threads[t := th])
      else s
    case Tick(elapsed) => s.(clock := s.clock + elapsed)
  }

  function Exec(s: State, schedule: seq<Action>): State
  {
    if schedule == [] then s else Apply(Exec(s, schedule[..|schedule| - 1]), schedule[|schedule| - 1])
  }

  const INITIAL := State(map[], [], 0, [])

  /** What was last remembered under a key, deletions aside. */
  function LastPut(history: seq<Mutation>, key: string): Option<Entry>
  {
    if history == [] then None
    else
      var m := history[|history| - 1];
      if m.Put? && m.key == key then Some(m.entry) else LastPut(history[..|history| - 1], key)
  }

  /** What the last mutation of a key left there. */
  function Current(history: seq<Mutation>, key: string): Option<Entry>
  {
    if history == [] then None
    else
      var m := history[|history| - 1];
      if m.key != key then Current(history[..|history| - 1], key)
      else if m.Put? then Some(m.entry) else None
  }

  lemma {:induction false} CurrentIsLastPut(history: seq<Mutation>, key: string)
    ensures Current(history, key).Some? ==> Current(history, key) == LastPut(history, key)
  {
    if history != [] {
      CurrentIsLastPut(history[..|history| - 1], key);
    }
  }

  lemma {:induction false} NoPutSince(history: seq<Mutation>, at: nat, key: string)
    requires at <= |history|
    requires forall i :: at <= i < |history| ==> !(history[i].Put? && history[i].key == key)
    ensures LastPut(history, key) == LastPut(history[..at], key)
  {
    if at == |history| {
      assert history[..at] == history;
    } else {
      var n := |history| - 1;
      assert history[..n][..at] == history[..at];
      NoPutSince(history[..n], at, key);
    }
  }

  ghost predicate ThreadOk(s: State, th: Thread)
  {
    match th
    case Started(key) => Trimmed(key)
    case Read(key, entry, at) =>
      key != "" && Trimmed(key) && at <= |s.history| && LastPut(s.history[..at], key) == Some(entry)
    case Expired(key, entry, at) =>
      && key != "" && Trimmed(key) && at <= |s.history| && LastPut(s.history[..at], key) == Some(entry)
      && entry.expiresAt < s.clock
    case Hit(key, entry, at, checked) =>
      at <= |s.history| && LastPut(s.history[..at], key) == Some(entry) && checked <= entry.expiresAt
    case _ => true
  }

  ghost predicate Inv(s: State)
  {
    && (forall k :: k in s.entries <==> Current(s.history, k).Some?)
    && (forall k :: k in s.entries ==> Current(s.history, k) == Some(s.entries[k]))
    && (forall th :: th in s.threads ==> ThreadOk(s, th))
  }

  lemma ThreadOkLater(s: State, s': State, th: Thread)
    requires ThreadOk(s, th) && s.clock <= s'.clock
    requires |s.history| <= |s'.history| && s'.history[..|s.history|] == s.history
    ensures ThreadOk(s', th)
  {
    if th.Read? || th.Expired? || th.Hit? {
      assert s'.history[..th.at] == s.history[..th.at];
    }
  }

  lemma EntriesKeep(s: State, a: Action)
    requires Inv(s)
    ensures var s' := Apply(s, a);
            && (forall k :: k in s'.entries <==> Current(s'.history, k).Some?)
            && (forall k :: k in s'.entries ==> Current(s'.history, k) == Some(s'.entries[k]))
    ensures var s' := Apply(s, a);
            s.clock <= s'.clock && |s.history| <= |s'.history| && s'.history[..|s.history|] == s.history
  {
    var s' := Apply(s, a);
    assert s'.history != s.history ==> s'.history[..|s'.history| - 1] == s.history;
  }

  lemma AdvanceOk(s: State, th: Thread)
    requires Inv(s) && ThreadOk(s, th)
    ensures ThreadOk(s, Advance(s, th).1)
  {
    if th.Started? {
      CurrentIsLastPut(s.history, th.key);
      assert s.history[..|s.history|] == s.history;
    }
  }

  lemma ApplyKeeps(s: State, a: Action)
    requires Inv(s)
    ensures Inv(Apply(s, a))
  {
    var s' := Apply(s, a);
    EntriesKeep(s, a);
    if a.Step? && a.t < |s.threads| {
      AdvanceOk(s, s.threads[a.t]);
    }
    forall th | th in s'.threads ensures ThreadOk(s', th) {
      assert th in s.threads || (a.Look? && th == Started(TrimSpace(a.key)))
             || (a.Step? && a.t < |s.threads| && th == Advance(s, s.threads[a.t]).1);
      assert ThreadOk(s, th);
      ThreadOkLater(s, s', th);
    }
  }

  lemma {:induction false} ExecKeeps(schedule: seq<Action>)
    ensures Inv(Exec(INITIAL, schedule))
  {
    if schedule != [] {
      ExecKeeps(schedule[..|schedule| - 1]);
      ApplyKeeps(Exec(INITIAL, schedule[..|schedule| - 1]), schedule[|schedule| - 1]);
    }
  }

  /** In every interleaving a hit returns what had been remembered last under its key when it
      read, and that had not expired at the moment it checked. */
  lemma HitIsLatestAndUnexpired(schedule: seq<Action>, t: nat)
    ensures var s := Exec(INITIAL, schedule);
            t < |s.threads| && s.threads[t].Hit? ==>
              var th := s.threads[t];
              && th.at <= |s.history|
              && LastPut(s.history[..th.at], th.key) == Some(th.entry)
              && th.checked <= th.entry.expiresAt
  {
    ExecKeeps(schedule);
    var s := Exec(INITIAL, schedule);
    if t < |s.threads| {
      assert ThreadOk(s, s.threads[t]);
    }
  }

  /** The map never holds anything but the last remembered entry of a key; all a race can do is
      leave a key out, and it is out exactly when the last mutation of the key was a deletion
      or there was none. */
  lemma {:induction false} OnlyEverLossy(schedule: seq<Action>, key: string)
    ensures var s := Exec(INITIAL, schedule);
            && (key in s.entries ==> LastPut(s.history, key) == Some(s.entries[key]))
            && (key !in s.entries <==> Current(s.history, key).None?)
  {
    ExecKeeps(schedule);
    CurrentIsLastPut(Exec(INITIAL, schedule).history, key);
  }

  /** Every key whose last remembered entry has not expired is present: the store answers as the
      sequential one would. */
  ghost predicate Faithful(s: State)
  {
    forall k :: LastPut(s.history, k).Some? && s.clock <= LastPut(s.history, k).value.expiresAt ==> k in s.entries
  }

  /** A step keeps a faithful store faithful unless it is a delete that hits an entry which has
      not expired; then, and only then, a later lookup can miss what it should find. */
  lemma DeleteLosesIff(schedule: seq<Action>, a: Action)
    requires Faithful(Exec(INITIAL, schedule))
    ensures var s := Exec(INITIAL, schedule);
            !Faithful(Apply(s, a)) <==>
              && a.Step? && a.t < |s.threads| && s.threads[a.t].Expired?
              && s.threads[a.t].key in s.entries && s.clock <= s.entries[s.threads[a.t].key].expiresAt
  {
    ExecKeeps(schedule);
    var s := Exec(INITIAL, schedule);
    var s' := Apply(s, a);
    assert s'.history != s.history ==> s'.history[..|s'.history| - 1] == s.history;
    forall k ensures LastPut(s'.history, k) == LastPut(s.history, k) || (a.Store? && k == TrimSpace(a.key)) {
    }
    if a.Step? && a.t < |s.threads| && s.threads[a.t].Expired? {
      CurrentIsLastPut(s.history, s.threads[a.t].key);
    }
  }

  /** Such a delete is always a race: the key was remembered again between the lookup's read and
      its delete. */
  lemma LossNeedsRace(schedule: seq<Action>, t: nat)
    requires var s := Exec(INITIAL, schedule);
             && t < |s.threads| && s.threads[t].Expired?
             && s.threads[t].key in s.entries && s.clock <= s.entries[s.threads[t].key].expiresAt
    ensures var s := Exec(INITIAL, schedule);
            exists i :: s.threads[t].at <= i < |s.history|
                        && s.history[i].Put? && s.history[i].key == s.threads[t].key
  {
    ExecKeeps(schedule);
    var s := Exec(INITIAL, schedule);
    var th := s.threads[t];
    assert ThreadOk(s, th);
    CurrentIsLastPut(s.history, th.key);
    if forall i :: th.at <= i < |s.history| ==> !(s.history[i].Put? && s.history[i].key == th.key) {
      NoPutSince(s.history, th.at, th.key);
    }
  }

  lemma ExecSnoc(schedule: seq<Action>, a: Action)
    ensures Exec(INITIAL, schedule + [a]) == Apply(Exec(INITIAL, schedule), a)
  {
    assert (schedule + [a])[..|schedule|] == schedule;
  }

  lemma StoreThenDelete(s: State, t: nat, backend: string, ttl: int)
    requires Inv(s) && t < |s.threads| && s.threads[t].Expired?
    requires backend != "" && Trimmed(backend)
    ensures var key := s.threads[t].key;
            var r := Apply(Apply(s, Store(key, backend, ttl)), Step(t));
            && LastPut(r.history, key).Some? && LastPut(r.history, key).value.backend == backend
            && r.clock <= LastPut(r.history, key).value.expiresAt
            && key !in r.entries
  {
    var key := s.threads[t].key;
    assert ThreadOk(s, s.threads[t]);
    TrimmedIsFixed(key);
    TrimmedIsFixed(backend);
    var s1 := Apply(s, Store(key, backend, ttl));
    var e := s1.history[|s.history|].entry;
    assert s1.history == s.history + [Put(key, e)];
    var r := Apply(s1, Step(t));
    assert r.history[..|r.history| - 1] == s1.history;
    assert s1.history[|s1.history| - 1] == Put(key, e);
  }

  /** The race loses: whenever a lookup has found its entry expired and not yet deleted it, a
      key remembered at that moment is gone after the delete, although it has not expired. */
  lemma RacingDeleteLosesFreshEntry(schedule: seq<Action>, t: nat, backend: string, ttl: int)
    requires t < |Exec(INITIAL, schedule).threads| && Exec(INITIAL, schedule).threads[t].Expired?
    requires backend != "" && Trimmed(backend)
    ensures var key := Exec(INITIAL, schedule).threads[t].key;
            var r := Exec(INITIAL, schedule + [Store(key, backend, ttl)] + [Step(t)]);
            && LastPut(r.history, key).Some? && LastPut(r.history, key).value.backend == backend
            && r.clock <= LastPut(r.history, key).value.expiresAt
            && key !in r.entries && !Faithful(r)
  {
    ExecKeeps(schedule);
    var key := Exec(INITIAL, schedule).threads[t].key;
    ExecSnoc(schedule, Store(key, backend, ttl));
    ExecSnoc(schedule + [Store(key, backend, ttl)], Step(t));
    StoreThenDelete(Exec(INITIAL, schedule), t, backend, ttl);
  }

  lemma OneStep(schedule: seq<Action>, a: Action, s: State) returns (longer: seq<Action>)
    requires Exec(INITIAL, schedule) == s
    ensures Exec(INITIAL, longer) == Apply(s, a)
  {
    longer := schedule + [a];
    ExecSnoc(schedule, a);
  }

  /** Such a lookup is reached: store a key, look it up, let it expire before the check. */
  lemma ExpiredLookupIsReached(key: string, backend: string) returns (schedule: seq<Action>)
    requires key != "" && Trimmed(key) && backend != "" && Trimmed(backend)
    ensures var s := Exec(INITIAL, schedule);
            |s.threads| == 1 && s.threads[0].Expired? && s.threads[0].key == key
  {
    TrimmedIsFixed(key);
    TrimmedIsFixed(backend);
    var e := Entry(backend, 1);
    var s1 := State(map[key := e], [Put(key, e)], 0, []);
    schedule := OneStep([], Store(key, backend, 1), INITIAL);
    assert Apply(INITIAL, Store(key, backend, 1)) == s1;
    schedule := OneStep(schedule, Look(key), s1);
    schedule := OneStep(schedule, Step(0), s1.(threads := [Started(key)]));
    schedule := OneStep(schedule, Tick(2), s1.(threads := [Read(key, e, 1)]));
    schedule := OneStep(schedule, Step(0), s1.(clock := 2, threads := [Read(key, e, 1)]));
  }

  // ----- What a lookup answers -----------------------------------------------------------

  /** A lookup that has read an entry answers with it, and changes nothing, if it has not expired
      at the check; otherwise it is about to delete the key. */
  lemma CheckDecides(s: State, t: nat)
    requires t < |s.threads| && s.threads[t].Read?
    ensures var th := s.threads[t];
            var r := Apply(s, Step(t));
            && (r.entries, r.history, r.clock) == (s.entries, s.history, s.clock) && |r.threads| == |s.threads|
            && (s.clock <= th.entry.expiresAt ==> r.threads[t] == Hit(th.key, th.entry, th.at, s.clock))
            && (s.clock > th.entry.expiresAt ==> r.threads[t] == Expired(th.key, th.entry, th.at))
  {
  }

  /** The action is the step at which lookup t fails: at its read the key is blank or absent, or at
      its check the entry has expired. */
  predicate FailsNow(s: State, a: Action, t: nat)
  {
    && a == Step(t) && t < |s.threads|
    && ((s.threads[t].Started? && (s.threads[t].key == "" || s.threads[t].key !in s.entries))
        || (s.threads[t].Read? && s.clock > s.threads[t].entry.expiresAt))
  }

  /** The step at which it succeeds: at its check the entry has not expired. */
  predicate SucceedsNow(s: State, a: Action, t: nat)
  {
    a == Step(t) && t < |s.threads| && s.threads[t].Read? && s.clock <= s.threads[t].entry.expiresAt
  }

  predicate FailsAt(schedule: seq<Action>, n: nat, t: nat)
  {
    n < |schedule| && FailsNow(Exec(INITIAL, schedule[..n]), schedule[n], t)
  }

  predicate SucceedsAt(schedule: seq<Action>, n: nat, t: nat)
  {
    n < |schedule| && SucceedsNow(Exec(INITIAL, schedule[..n]), schedule[n], t)
  }

  /** Lookup t has failed (it may still have to delete the key), or has hit. */
  predicate HasMissed(s: State, t: nat)
  {
    t < |s.threads| && (s.threads[t].Missed? || s.threads[t].Expired?)
  }

  predicate HasHit(s: State, t: nat)
  {
    t < |s.threads| && s.threads[t].Hit?
  }

  lemma OutcomeStep(s: State, a: Action, t: nat)
    ensures HasMissed(Apply(s, a), t) <==> HasMissed(s, t) || FailsNow(s, a, t)
    ensures HasHit(Apply(s, a), t) <==> HasHit(s, t) || SucceedsNow(s, a, t)
  {
  }

  ghost predicate Fails(schedule: seq<Action>, t: nat)
  {
    exists n: nat :: FailsAt(schedule, n, t)
  }

  ghost predicate Succeeds(schedule: seq<Action>, t: nat)
  {
    exists n: nat :: SucceedsAt(schedule, n, t)
  }

  lemma SameBefore(schedule: seq<Action>, before: seq<Action>, m: nat, t: nat)
    requires schedule != [] && before == schedule[..|schedule| - 1] && m < |before|
    ensures FailsAt(schedule, m, t) <==> FailsAt(before, m, t)
    ensures SucceedsAt(schedule, m, t) <==> SucceedsAt(before, m, t)
  {
    assert before[..m] == schedule[..m];
  }

  lemma FailsSnoc(schedule: seq<Action>, before: seq<Action>, t: nat)
    requires schedule != [] && before == schedule[..|schedule| - 1]
    ensures Fails(schedule, t) <==> Fails(before, t) || FailsAt(schedule, |before|, t)
  {
    forall m: nat | m < |before| ensures FailsAt(schedule, m, t) <==> FailsAt(before, m, t) {
      SameBefore(schedule, before, m, t);
    }
  }

  lemma SucceedsSnoc(schedule: seq<Action>, before: seq<Action>, t: nat)
    requires schedule != [] && before == schedule[..|schedule| - 1]
    ensures Succeeds(schedule, t) <==> Succeeds(before, t) || SucceedsAt(schedule, |before|, t)
  {
    forall m: nat | m < |before| ensures SucceedsAt(schedule, m, t) <==> SucceedsAt(before, m, t) {
      SameBefore(schedule, before, m, t);
    }
  }

  /** In every interleaving a lookup misses exactly when it fails at its read or at its check, and
      hits exactly when it succeeds there. */
  lemma {:induction false} OutcomeIff(schedule: seq<Action>, t: nat)
    ensures HasMissed(Exec(INITIAL, schedule), t) <==> Fails(schedule, t)
    ensures HasHit(Exec(INITIAL, schedule), t) <==> Succeeds(schedule, t)
  {
    if schedule != [] {
      var before := schedule[..|schedule| - 1];
      OutcomeIff(before, t);
      FailsSnoc(schedule, before, t);
      SucceedsSnoc(schedule, before, t);
      OutcomeStep(Exec(INITIAL, before), schedule[|before|], t);
    }
  }

  /** The calls of RememberBackend that a schedule makes, as the sequential store logs them. */
  function Log(schedule: seq<Action>): seq<Remember>
  {
    if schedule == [] then []
    else
      var n := |schedule| - 1;
      var before := Exec(INITIAL, schedule[..n]);
      Log(schedule[..n]) + match schedule[n]
                           case Store(key, backend, ttl) => [Remember(key, backend, ttl, before.clock)]
                           case _ => []
  }

  lemma StepKeepsPuts(s: State, a: Action, k: string)
    requires !a.Store?
    ensures LastPut(Apply(s, a).history, k) == LastPut(s.history, k)
  {
    var h := Apply(s, a).history;
    assert h != s.history ==> h[..|h| - 1] == s.history;
  }

  /** Deletions aside, the machine's history is the sequential store's log. */
  lemma {:induction false} PutsAreLog(schedule: seq<Action>, k: string)
    ensures LastPut(Exec(INITIAL, schedule).history, k) == Latest(Log(schedule), k)
  {
    if schedule != [] {
      var n := |schedule| - 1;
      var s := Exec(INITIAL, schedule[..n]);
      PutsAreLog(schedule[..n], k);
      if schedule[n].Store? {
        var w := Remember(schedule[n].key, schedule[n].backend, schedule[n].ttl, s.clock);
        LatestSnoc(Log(schedule[..n]), w, k);
        var h := Apply(s, schedule[n]).history;
        assert h != s.history ==> h[..|h| - 1] == s.history;
      } else {
        StepKeepsPuts(s, schedule[n], k);
        assert Log(schedule) == Log(schedule[..n]);
      }
    }
  }

  /** What a lookup of a trimmed key does when nobody else moves: read, check, and delete. */
  lemma ThreeSteps(s: State, k: string, t: nat)
    requires t < |s.threads| && s.threads[t] == Started(k)
    ensures var r := Apply(Apply(Apply(s, Step(t)), Step(t)), Step(t));
            && t < |r.threads|
            && if k != "" && k in s.entries && s.clock <= s.entries[k].expiresAt
               then r.threads[t] == Hit(k, s.entries[k], |s.history|, s.clock)
               else r.threads[t] == Missed
  {
  }

  /** A lookup that is not interleaved with anything answers what the sequential store answers of
      the same history, wherever the store still answers as the sequential one would. */
  lemma LookupAlone(schedule: seq<Action>, key: string)
    requires Faithful(Exec(INITIAL, schedule))
    ensures var s := Exec(INITIAL, schedule);
            var t := |s.threads|;
            var r := Exec(INITIAL, schedule + [Look(key)] + [Step(t)] + [Step(t)] + [Step(t)]);
            && t < |r.threads|
            && match Lookup(Log(schedule), key, s.clock)
               case Some(b) => r.threads[t].Hit? && r.threads[t].entry.backend == b
               case None => r.threads[t].Missed?
  {
    var s := Exec(INITIAL, schedule);
    var k := TrimSpace(key);
    FourActions(schedule, key, |s.threads|);
    ThreeSteps(Apply(s, Look(key)), k, |s.threads|);
    FaithfulAnswers(schedule, key);
  }

  /** What a faithful store holds is what the sequential one answers. */
  lemma FaithfulAnswers(schedule: seq<Action>, key: string)
    requires Faithful(Exec(INITIAL, schedule))
    ensures var s, k := Exec(INITIAL, schedule), TrimSpace(key);
            Lookup(Log(schedule), key, s.clock)
            == if k != "" && k in s.entries && s.clock <= s.entries[k].expiresAt
               then Some(s.entries[k].backend) else None
  {
    var k := TrimSpace(key);
    OnlyEverLossy(schedule, k);
    PutsAreLog(schedule, k);
  }

  lemma FourActions(schedule: seq<Action>, key: string, t: nat)
    ensures Exec(INITIAL, schedule + [Look(key)] + [Step(t)] + [Step(t)] + [Step(t)])
            == Apply(Apply(Apply(Apply(Exec(INITIAL, schedule), Look(key)), Step(t)), Step(t)), Step(t))
  {
    ExecSnoc(schedule, Look(key));
    ExecSnoc(schedule + [Look(key)], Step(t));
    ExecSnoc(schedule + [Look(key)] + [Step(t)], Step(t));
    ExecSnoc(schedule + [Look(key)] + [Step(t)] + [Step(t)], Step(t));
  }
}
