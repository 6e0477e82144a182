/** The least_pending strategy. */
module LeastPendingStrategy {
  import opened Ring
  import opened Books
  import opened Backends
  import opened LoadTracking

  class LeastPending {
    var backends: seq<Backend>
    var next: nat
    var loads: map<Backend, Counter>
    /** Every counter this instance allocated, with the backend it was allocated for. */
    ghost var owner: map<Counter, Backend>

    ghost function Known(): set<Counter>
      reads this
    {
      owner.Keys
    }

    ghost function Accounts(): Book<Backend, Counter>
      reads this, Known()
    {
      Book(backends, loads, ValuesOf(Known()), next)
    }

    /** The published map is in order, whatever its counters read. */
    ghost predicate Valid()
      reads this
    {
      Consistent(backends, loads, owner)
    }

    constructor (backends: seq<Backend>)
      ensures Valid() && fresh(Known()) && forall c :: c in Known() ==> c.value == 0
      ensures Republished(Book([], map[], map[], 0), backends, Accounts())
    {
      next := 0;
      new;
      ghost var empty: Book<Backend, Counter> := Book([], map[], map[], 0);
      this.loads, this.owner := Rebind(map[], backends, map[], empty);
      this.backends := backends;
    }

    method SetBackends(backends: seq<Backend>)
      requires Valid()
      modifies this
      ensures Valid() && old(Known()) <= Known() && fresh(Known() - old(Known()))
      ensures Republished(old(Accounts()), backends, Accounts())
    {
      ghost var before := Accounts();
      var updated: map<Backend, Counter>;
      ghost var grown: map<Counter, Backend>;
      updated, grown := Rebind(loads, backends, owner, before);
      ghost var after := Book(backends, updated, ValuesOf(grown.Keys), next);
      this.backends := backends;
      loads, owner := updated, grown;
      assert Accounts() == after;
    }

    /** Select is the least-loaded Select of the books at cost 1, and its decision holds the
        charged counter. */
    method Select() returns (r: Selection)
      requires Valid() && next < TICKET_LIMIT
      modifies this`next, Known()
      ensures Valid() && backends == old(backends) && loads == old(loads) && owner == old(owner)
      ensures var (book, g) := Books.Select(old(Accounts()), old(HealthySet(backends)), 1);
              && Accounts() == book
              && (r.Selected? <==> g.Granted?)
              && (r.Selected? ==>
                    var d := r.decision;
                    && fresh(d) && !d.fired && d.backend == g.backend && d.counter == g.counter && d.amount == 1
                    && d.pendingRequests == g.pending && d.pendingCost == 0 && !d.cacheHit)
      ensures r.Selected? <==> exists b :: b in backends && b.healthy
    {
      ghost var before := Accounts();
      ConsistentIsWellFormed(backends, loads, owner, next);
      GrantedIff(before, 1);
      if |backends| == 0 {
        return NoHealthyBackend;
      }
      next := next + 1;
      var chosen, chosenLoad, pendingAfter := ScanAndCharge(backends, loads, next - 1, 1, Known(), before);
      if chosen == null {
        return NoHealthyBackend;
      }
      var decision := new Decision(chosen, pendingAfter, 0, false, chosenLoad, 1);
      return Selected(decision);
    }

    method HasHealthyBackend() returns (r: bool)
      ensures r <==> exists b :: b in backends && b.healthy
    {
      r := AnyHealthy(backends);
    }
  }
}
