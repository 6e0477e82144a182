/** Concurrent Selects of the load-tracking selectors (least_pending, cost_aware, kv_aware) as a
    step machine. Every Select is a thread; each read of a health flag, each read of a counter,
    the ticket, the final Add, each half of a Release, and each publication of a new list is a
    step of its own, and `Exec` runs any schedule of them. */
module SelectMachine {
  import opened Sums
  import opened Ring
  import opened Books

  /** A counter object, named by the backend it was allocated for and the publication that
      allocated it. */
  datatype CounterId = CounterId(backend: nat, epoch: nat)

  type Ledger = Book<nat, CounterId>

  /** What a Select copies under the read lock. A Select on an empty list returns at once, so a
      thread that goes on has a non-empty one. */
  datatype RawSnapshot = Snapshot(backends: seq<nat>, loads: map<nat, CounterId>)
  type Snapshot = s: RawSnapshot | s.backends != [] witness Snapshot([0], map[])

  datatype Candidate = Candidate(backend: nat, counter: CounterId, pending: int)

  /** A decision's latch: untouched, latched with the subtraction still to come, or done. */
  datatype Phase = Live | Releasing | Released

  /** `seen` and `origin` only record what happened: the outcomes of the scan so far, and the
      state of the Select at its Add. */
  datatype Thread =
    | Arrived(cost: nat, hint: Option<nat>)
    | Probing(snap: Snapshot, cost: nat, wanted: nat, i: nat)
    | Matched(snap: Snapshot, cost: nat, backend: nat, counter: CounterId)
    | Ticketing(snap: Snapshot, cost: nat)
    | Scanning(snap: Snapshot, cost: nat, start: nat, seen: seq<Option<int>>, up: bool, best: Option<Candidate>)
    | Turned
    | Decided(origin: Thread, backend: nat, counter: CounterId, cost: nat, pending: int, phase: Phase)

  datatype State = State(book: Ledger, epoch: nat, healthy: set<nat>, threads: seq<Thread>)

  /** A least_pending Select is spawned with estimate 1 and no hint, a cost_aware one with its
      estimate and no hint, a kv_aware one with estimate 1 and, as hint, the backend its affinity
      lookup names (None when the lookup misses, fails or is skipped). */
  datatype Action =
    | Spawn(estimated: int, hint: Option<nat>)
    | Step(t: nat)
    | Release(t: nat)
    | Subtract(t: nat)
    | Publish(backends: seq<nat>)
    | SetHealthy(b: nat, up: bool)

  function Value(book: Ledger, c: CounterId): int
  {
    if c in book.values then book.values[c] else 0
  }

  function Commit(book: Ledger, th: Thread, b: nat, c: CounterId, cost: nat): (Ledger, Thread)
  {
    var after := Value(book, c) + cost;
    (book.(values := book.values[c := after]), Decided(th, b, c, cost, after, Live))
  }

  /** The next atomic step of one Select. A ticket is only handed out below 2^63. */
  function Advance(book: Ledger, healthy: set<nat>, th: Thread): (Ledger, Thread)
  {
    match th
    case Arrived(cost, hint) =>
      if book.backends == [] then (book, Turned)
      else
        var snap: Snapshot := Snapshot(book.backends, book.loads);
        (book, if hint.Some? then Probing(snap, cost, hint.value, 0) else Ticketing(snap, cost))
    case Probing(snap, cost, wanted, i) =>
      if i >= |snap.backends| then (book, Ticketing(snap, cost))
      else
        var b := snap.backends[i];
        if b != wanted || b !in healthy then (book, Probing(snap, cost, wanted, i + 1))
        else if b !in snap.loads then (book, Ticketing(snap, cost))
        else (book, Matched(snap, cost, b, snap.loads[b]))
    case Matched(_, cost, b, c) => Commit(book, th, b, c, cost)
    case Ticketing(snap, cost) =>
      if book.next >= TICKET_LIMIT then (book, th)
      else (book.(next := book.next + 1),
            Scanning(snap, cost, book.next % |snap.backends|, [], false, None))
    case Scanning(snap, cost, start, seen, up, best) =>
      var n := |snap.backends|;
      if |seen| >= n then
        if best.None? then (book, Turned)
        else Commit(book, th, best.value.backend, best.value.counter, cost)
      else
        var b := snap.backends[At(start, |seen|, n)];
        if !up then
          if b in healthy then (book, Scanning(snap, cost, start, seen, true, best))
          else (book, Scanning(snap, cost, start, seen + [None], false, best))
        else if b !in snap.loads then (book, Scanning(snap, cost, start, seen + [None], false, best))
        else
          var c := snap.loads[b];
          var v := Value(book, c);
          var better := best.None? || v < best.value.pending;
          (book, Scanning(snap, cost, start, seen + [Some(v)], false,
                          if better then Some(Candidate(b, c, v)) else best))
    case _ => (book, th)
  }

  /** Publishing a list: a listed backend that already had a counter keeps it. */
  function Rebind(book: Ledger, epoch: nat, backends: seq<nat>): (r: Ledger)
    ensures (forall c :: c in book.values ==> c.epoch < epoch) ==> Republished(book, backends, r)
  {
    var added := set b | b in backends && b !in book.loads :: CounterId(b, epoch);
    Book(backends,
         map b | b in backends :: if b in book.loads then book.loads[b] else CounterId(b, epoch),
         book.values + map c | c in added :: 0,
         book.next)
  }

  function Apply(s: State, a: Action): State
  {
    match a
    case Spawn(estimated, hint) => s.(threads := s.threads + [Arrived(EffectiveCost(estimated), hint)])
    case Step(t) =>
      if t < |s.threads| then
        var (book, th) := Advance(s.book, s.healthy, s.threads[t]);
        s.(book := book, threads := s.threads[t := th])
      else s
    case Release(t) =>
      if t < |s.threads| && s.threads[t].Decided? && s.threads[t].phase.Live?
      then s.(threads := s.threads[t := s.threads[t].(phase := Releasing)])
      else s
    case Subtract(t) =>
      if t < |s.threads| && s.threads[t].Decided? && s.threads[t].phase.Releasing? then
        var th := s.threads[t];
        s.(book := s.book.(values := s.book.values[th.counter := Value(s.book, th.counter) - th.cost]),
           threads := s.threads[t := th.(phase := Released)])
      else s
    case Publish(backends) => s.(book := Rebind(s.book, s.epoch, backends), epoch := s.epoch + 1)
    case SetHealthy(b, up) => s.(healthy := if up then s.healthy + {b} else s.healthy - {b})
  }

  function Exec(s: State, schedule: seq<Action>): State
  {
    if schedule == [] then s
    else Apply(Exec(s, schedule[..|schedule| - 1]), schedule[|schedule| - 1])
  }

  lemma ExecOne(s: State, a: Action)
    ensures Exec(s, [a]) == Apply(s, a)
  {
    assert [a][..0] == [];
    assert Exec(s, []) == s;
  }

  lemma {:induction false} ExecConcat(s: State, xs: seq<Action>, ys: seq<Action>)
    ensures Exec(s, xs + ys) == Exec(Exec(s, xs), ys)
  {
    if ys == [] {
      assert xs + ys == xs;
    } else {
      assert (xs + ys)[..|xs + ys| - 1] == xs + ys[..|ys| - 1];
      ExecConcat(s, xs, ys[..|ys| - 1]);
    }
  }

  /** A new instance: the constructor publishes its list on empty books. */
  function Fresh(backends: seq<nat>, healthy: set<nat>): State
  {
    State(Rebind(Book([], map[], map[], 0), 0, backends), 1, healthy, [])
  }

  // ----- What every step keeps -----------------------------------------------------------

  /** What thread th owes counter c: its cost from the Add until the subtraction. */
  function Owed(th: Thread, c: CounterId): nat
  {
    if th.Decided? && !th.phase.Released? && th.counter == c then th.cost else 0
  }

  function OwedTo(c: CounterId): Thread -> int
  {
    (th: Thread) => Owed(th, c)
  }

  ghost predicate SnapshotOk(values: map<CounterId, int>, snap: RawSnapshot)
  {
    && (forall b :: b in snap.loads <==> b in snap.backends)
    && (forall b :: b in snap.loads ==> snap.loads[b].backend == b && snap.loads[b] in values)
  }

  /** The candidate kept by the scan is the best of what it has seen. */
  ghost predicate CandidateOk(th: Thread)
    requires th.Scanning?
  {
    match Best(th.seen)
    case None => th.best.None?
    case Some(j) =>
      && th.best.Some?
      && th.best.value.backend == th.snap.backends[At(th.start, j, |th.snap.backends|)]
      && th.best.value.backend in th.snap.loads
      && th.best.value.counter == th.snap.loads[th.best.value.backend]
      && th.best.value.pending == th.seen[j].value
  }

  ghost predicate ThreadOk(values: map<CounterId, int>, th: Thread)
  {
    match th
    case Arrived(cost, _) => cost >= 1
    case Probing(snap, cost, _, _) => cost >= 1 && SnapshotOk(values, snap)
    case Matched(snap, cost, b, c) =>
      cost >= 1 && SnapshotOk(values, snap) && b in snap.loads && c == snap.loads[b]
    case Ticketing(snap, cost) => cost >= 1 && SnapshotOk(values, snap)
    case Scanning(snap, cost, start, seen, up, best) =>
      && cost >= 1 && SnapshotOk(values, snap)
      && start < |snap.backends| && |seen| <= |snap.backends| && (up ==> |seen| < |snap.backends|)
      && CandidateOk(th)
    case Turned => true
    case Decided(origin, b, c, cost, _, _) =>
      && c in values && c.backend == b && cost >= 1
      && (origin.Matched? || (origin.Scanning? && |origin.seen| == |origin.snap.backends| && origin.best.Some?))
      && ThreadOk(values, origin) && origin.cost == cost
      && (origin.Matched? ==> b == origin.backend && c == origin.counter)
      && (origin.Scanning? ==> b == origin.best.value.backend && c == origin.best.value.counter)
  }

  ghost predicate Inv(s: State)
  {
    && SnapshotOk(s.book.values, Snapshot(s.book.backends, s.book.loads))
    && (forall c :: c in s.book.values ==> c.epoch < s.epoch)
    && (forall th :: th in s.threads ==> ThreadOk(s.book.values, th))
    && (forall c :: c in s.book.values ==> s.book.values[c] == Sum(s.threads, OwedTo(c)))
  }

  lemma {:induction false} ThreadOkGrows(v: map<CounterId, int>, w: map<CounterId, int>, th: Thread)
    requires ThreadOk(v, th) && v.Keys <= w.Keys
    ensures ThreadOk(w, th)
    decreases th
  {
    if th.Decided? {
      ThreadOkGrows(v, w, th.origin);
    }
  }

  lemma CandidateStep(th: Thread, o: Option<int>, best: Option<Candidate>)
    requires th.Scanning? && CandidateOk(th) && |th.seen| < |th.snap.backends|
    requires o.None? ==> best == th.best
    requires o.Some? ==>
      var b := th.snap.backends[At(th.start, |th.seen|, |th.snap.backends|)];
      && b in th.snap.loads
      && best == if th.best.None? || o.value < th.best.value.pending
                 then Some(Candidate(b, th.snap.loads[b], o.value)) else th.best
    ensures CandidateOk(Scanning(th.snap, th.cost, th.start, th.seen + [o], false, best))
  {
    assert (th.seen + [o])[..|th.seen|] == th.seen;
  }

  /** What one step of one Select keeps: keys, list and map of the books, its own order, and on
      every counter the balance of value and debt. */
  ghost predicate StepOk(book: Ledger, th: Thread, after: (Ledger, Thread))
  {
    && after.0.values.Keys == book.values.Keys
    && after.0.backends == book.backends && after.0.loads == book.loads
    && ThreadOk(after.0.values, after.1)
    && forall c :: c in book.values ==>
         after.0.values[c] - book.values[c] == Owed(after.1, c) - Owed(th, c)
  }

  lemma CommitKeeps(book: Ledger, th: Thread, b: nat, c: CounterId)
    requires ThreadOk(book.values, th)
    requires (th.Matched? && b == th.backend && c == th.counter)
             || (th.Scanning? && |th.seen| == |th.snap.backends| && th.best.Some?
                 && b == th.best.value.backend && c == th.best.value.counter)
    ensures StepOk(book, th, Commit(book, th, b, c, th.cost))
  {
    ThreadOkGrows(book.values, Commit(book, th, b, c, th.cost).0.values, th);
  }

  lemma ScanningKeeps(book: Ledger, healthy: set<nat>, th: Thread)
    requires ThreadOk(book.values, th) && th.Scanning? && |th.seen| < |th.snap.backends|
    ensures StepOk(book, th, Advance(book, healthy, th))
  {
    var th' := Advance(book, healthy, th).1;
    if |th'.seen| > |th.seen| {
      CandidateStep(th, th'.seen[|th.seen|], th'.best);
    }
  }

  lemma EarlyKeeps(book: Ledger, healthy: set<nat>, th: Thread)
    requires SnapshotOk(book.values, Snapshot(book.backends, book.loads)) && ThreadOk(book.values, th)
    requires th.Arrived? || th.Probing? || th.Ticketing? || th.Turned? || th.Decided?
    ensures StepOk(book, th, Advance(book, healthy, th))
  {
  }

  lemma AdvanceKeeps(s: State, t: nat)
    requires Inv(s) && t < |s.threads|
    ensures StepOk(s.book, s.threads[t], Advance(s.book, s.healthy, s.threads[t]))
  {
    var th := s.threads[t];
    assert ThreadOk(s.book.values, th);
    if th.Matched? {
      CommitKeeps(s.book, th, th.backend, th.counter);
    } else if !th.Scanning? {
      EarlyKeeps(s.book, s.healthy, th);
    } else if |th.seen| < |th.snap.backends| {
      ScanningKeeps(s.book, s.healthy, th);
    } else if th.best.Some? {
      CommitKeeps(s.book, th, th.best.value.backend, th.best.value.counter);
    }
  }

  lemma ThreadsKeep(s: State, t: nat, th: Thread, book: Ledger)
    requires Inv(s) && t < |s.threads| && StepOk(s.book, s.threads[t], (book, th))
    ensures Inv(s.(book := book, threads := s.threads[t := th]))
  {
    var s' := s.(book := book, threads := s.threads[t := th]);
    forall x | x in s'.threads ensures ThreadOk(book.values, x) {
      if x != th {
        assert x in s.threads;
        ThreadOkGrows(s.book.values, book.values, x);
      }
    }
    forall c | c in book.values ensures book.values[c] == Sum(s'.threads, OwedTo(c)) {
      SumUpdate(s.threads, t, th, OwedTo(c));
    }
  }

  lemma PublishKeeps(s: State, backends: seq<nat>)
    requires Inv(s)
    ensures Inv(Apply(s, Publish(backends)))
  {
    var s' := Apply(s, Publish(backends));
    forall x | x in s'.threads ensures ThreadOk(s'.book.values, x) {
      ThreadOkGrows(s.book.values, s'.book.values, x);
    }
    forall c | c in s'.book.values ensures s'.book.values[c] == Sum(s'.threads, OwedTo(c)) {
      if c !in s.book.values {
        NobodyOwes(s, c);
      }
    }
  }

  lemma NobodyOwes(s: State, c: CounterId)
    requires Inv(s) && c !in s.book.values
    ensures Sum(s.threads, OwedTo(c)) == 0
  {
    forall th | th in s.threads ensures OwedTo(c)(th) == 0 {
      assert ThreadOk(s.book.values, th);
    }
    SumZeroIff(s.threads, OwedTo(c));
  }

  lemma ApplyKeeps(s: State, a: Action)
    requires Inv(s)
    ensures Inv(Apply(s, a))
  {
    match a
    case Spawn(estimated, hint) =>
      forall c | c in s.book.values
        ensures s.book.values[c] == Sum(Apply(s, a).threads, OwedTo(c))
      {
        SumAppend(s.threads, Arrived(EffectiveCost(estimated), hint), OwedTo(c));
      }
    case Step(t) =>
      if t < |s.threads| {
        AdvanceKeeps(s, t);
        var (book, th) := Advance(s.book, s.healthy, s.threads[t]);
        ThreadsKeep(s, t, th, book);
      }
    case Release(t) =>
      if t < |s.threads| && s.threads[t].Decided? && s.threads[t].phase.Live? {
        assert ThreadOk(s.book.values, s.threads[t]);
        ThreadsKeep(s, t, s.threads[t].(phase := Releasing), s.book);
      }
    case Subtract(t) =>
      if t < |s.threads| && s.threads[t].Decided? && s.threads[t].phase.Releasing? {
        var th := s.threads[t];
        assert ThreadOk(s.book.values, th);
        var book := Apply(s, a).book;
        ThreadOkGrows(s.book.values, book.values, th);
        ThreadsKeep(s, t, th.(phase := Released), book);
      }
    case Publish(backends) => PublishKeeps(s, backends);
    case SetHealthy(_, _) =>
  }

  lemma {:induction false} ExecKeeps(s: State, schedule: seq<Action>)
    requires Inv(s)
    ensures Inv(Exec(s, schedule))
  {
    if schedule != [] {
      ExecKeeps(s, schedule[..|schedule| - 1]);
      ApplyKeeps(Exec(s, schedule[..|schedule| - 1]), schedule[|schedule| - 1]);
    }
  }

  lemma FreshInv(backends: seq<nat>, healthy: set<nat>)
    ensures Inv(Fresh(backends, healthy))
  {
  }
}
