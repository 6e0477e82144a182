/** What the three load-tracking selectors share: publishing a list, the least-loaded scan, and
    the books they are specified by. */
module LoadTracking {
  import opened Sums
  import opened Ring
  import opened Books
  import opened Backends

  ghost function ValuesOf(known: set<Counter>): (v: map<Counter, int>)
    reads known
    ensures v.Keys == known && forall c :: c in known ==> v[c] == c.value
  {
    map c | c in known :: c.value
  }

  /** Well-formedness of the books, without the values. `owner` records which backend each
      counter was allocated for. */
  ghost predicate Consistent(backends: seq<Backend>, loads: map<Backend, Counter>, owner: map<Counter, Backend>)
  {
    && loads.Keys == (set b | b in backends)
    && (forall b {:trigger loads[b]} :: b in loads ==> loads[b] in owner && owner[loads[b]] == b)
  }

  lemma ConsistentIsWellFormed(backends: seq<Backend>, loads: map<Backend, Counter>,
                               owner: map<Counter, Backend>, next: nat)
    requires Consistent(backends, loads, owner)
    ensures WellFormed(Book(backends, loads, ValuesOf(owner.Keys), next))
  {
  }

  /** A Select of the books is granted exactly when some listed backend is healthy. */
  lemma GrantedIff(a: Book<Backend, Counter>, cost: int)
    requires WellFormed(a)
    ensures Select(a, HealthySet(a.backends), cost).1.Granted? <==> exists b :: b in a.backends && b.healthy
  {
    SelectServesLeastLoaded(a, HealthySet(a.backends), cost);
  }

  /** The body of SetBackends: listed backends keep the counter they have, the others get a new
      one, at zero. */
  method Rebind(loads: map<Backend, Counter>, backends: seq<Backend>, ghost owner: map<Counter, Backend>,
                ghost before: Book<Backend, Counter>)
    returns (updated: map<Backend, Counter>, ghost grown: map<Counter, Backend>)
    requires forall b :: b in loads ==> loads[b] in owner && owner[loads[b]] == b
    requires before.loads == loads && before.values == ValuesOf(owner.Keys)
    ensures Consistent(backends, updated, grown)
    ensures fresh(grown.Keys - owner.Keys) && owner.Keys <= grown.Keys
    ensures forall c :: c in grown.Keys - owner.Keys ==> c.value == 0
    ensures Republished(before, backends, Book(backends, updated, ValuesOf(grown.Keys), before.next))
  {
    updated := map[];
    grown := owner;
    for i := 0 to |backends|
      invariant owner.Keys <= grown.Keys && fresh(grown.Keys - owner.Keys)
      invariant forall c :: c in grown.Keys - owner.Keys ==> c.value == 0
      invariant forall b :: b in updated ==> b in backends[..i] && updated[b] in grown && grown[updated[b]] == b
      invariant forall b :: b in backends[..i] ==> b in updated
      invariant forall b :: b in updated && b in loads ==> updated[b] == loads[b]
      invariant forall b :: b in updated && b !in loads ==> updated[b] !in owner
      invariant forall c :: c in owner ==> grown[c] == owner[c]
    {
      var backend := backends[i];
      if backend in loads {
        updated := updated[backend := loads[backend]];
      } else {
        var counter := new Counter();
        updated := updated[backend := counter];
        grown := grown[counter := backend];
      }
    }
    assert backends[..|backends|] == backends;
    assert forall c :: c in ValuesOf(grown.Keys) ==> ValuesOf(grown.Keys)[c] == c.value;
  }

  /** The scan: a least loaded healthy backend, the first from `start` on, with its counter. */
  method Scan(backends: seq<Backend>, loads: map<Backend, Counter>, start: nat,
              ghost known: set<Counter>, ghost next: nat)
    returns (chosen: Backend?, chosenLoad: Counter?)
    requires start < |backends|
    requires forall b :: b in loads ==> loads[b] in known
    ensures match Choose(View(Book(backends, loads, ValuesOf(known), next), HealthySet(backends)), start)
            case None => chosen == null
            case Some(k) => chosen == backends[k] && chosen in loads && chosenLoad == loads[chosen]
  {
    ghost var view := View(Book(backends, loads, ValuesOf(known), next), HealthySet(backends));
    ghost var seen := Ordered(view, start);
    var n := |backends|;
    var minPending := 0;
    chosen, chosenLoad := null, null;
    for i := 0 to n
      invariant match Best(seen[..i])
                case None => chosen == null
                case Some(j) =>
                  && chosen == backends[At(start, j, n)] && chosen in loads
                  && chosenLoad == loads[chosen] && seen[j] == Some(minPending)
    {
      var backend := backends[(start + i) % n];
      assert backend == backends[At(start, i, n)] && backend in backends;
      assert seen[..i + 1][..i] == seen[..i];
      if !backend.healthy {
        continue;
      }
      if backend !in loads {
        continue;
      }
      var load := loads[backend];
      var pending := load.value;
      if chosen == null || pending < minPending {
        chosen := backend;
        chosenLoad := load;
        minPending := pending;
      }
    }
    assert seen[..n] == seen;
  }

  /** The scan from a ticket and the Add to what it chose: on books `before` that hand out this
      ticket next, exactly Books.Select. */
  method ScanAndCharge(backends: seq<Backend>, loads: map<Backend, Counter>, ticket: nat, cost: int,
                       ghost known: set<Counter>, ghost before: Book<Backend, Counter>)
    returns (chosen: Backend?, chosenLoad: Counter?, pendingAfter: int)
    requires backends != [] && ticket < TICKET_LIMIT
    requires forall b :: b in loads ==> loads[b] in known
    requires before == Book(backends, loads, ValuesOf(known), ticket)
    modifies known
    ensures var (book, g) := Select(before, old(HealthySet(backends)), cost);
            && book == Book(backends, loads, ValuesOf(known), ticket + 1)
            && (chosen == null <==> g.Refused?)
            && (g.Granted? ==> chosen == g.backend && chosenLoad == g.counter && pendingAfter == g.pending)
  {
    ghost var outcome := Select(before, HealthySet(backends), cost);
    var start := StartOf(ticket, |backends|);
    chosen, chosenLoad := Scan(backends, loads, start, known, ticket);
    pendingAfter := 0;
    if chosen != null {
      assert outcome == Charge(before.(next := ticket + 1), chosen, cost);
      pendingAfter := chosenLoad.Add(cost);
      assert ValuesOf(known) == before.values[chosenLoad := pendingAfter];
    }
  }

  /** int(ticket) % n in Go, on the tickets for which it is an index. */
  method StartOf(ticket: nat, n: nat) returns (start: nat)
    requires ticket < TICKET_LIMIT && n > 0
    ensures start == StartIndex(ticket, n) == ticket % n && start < n
  {
    StartIsIndexIff(ticket, n);
    start := GoRemainder(ToInt64(ticket), n);
  }
}
