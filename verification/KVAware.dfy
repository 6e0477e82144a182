/** The kv_aware strategy: prompt affinity first, least pending otherwise. */
module KVAwareStrategy {
  import opened Sums
  import opened Ring
  import opened Books
  import opened Backends
  import opened LoadTracking
  import opened Cache

  /** The first listed backend of that name that is healthy. */
  ghost function FirstNamed(backends: seq<Backend>, name: string): (r: Option<Backend>)
    reads backends
    ensures r.Some? <==> exists b :: b in backends && b.name == name && b.healthy
    ensures r.Some? ==> r.value in backends && r.value.name == name && r.value.healthy
  {
    if backends == [] then None
    else if backends[0].name == name && backends[0].healthy then Some(backends[0])
    else
      assert backends == [backends[0]] + backends[1..];
      FirstNamed(backends[1..], name)
  }

  ghost function Match(backends: seq<Backend>, preferred: Option<string>): Option<Backend>
    reads backends
  {
    if preferred.None? then None else FirstNamed(backends, preferred.value)
  }

  /** What the store says about a key; without a store or a key it is not asked. */
  ghost function Preferred(store: MemoryStore?, key: string, now: int): Option<string>
    reads store
  {
    if store == null || key == "" then None else Lookup(store.log, key, now)
  }

  ghost predicate NamesDistinct(backends: seq<Backend>)
  {
    forall i, j :: 0 <= i < j < |backends| ==> backends[i].name != backends[j].name
  }

  /** The backend that an answered name stands for, if it is listed. */
  ghost predicate StandsFor(backends: seq<Backend>, preferred: Option<string>, hint: Option<Backend>)
  {
    match preferred
    case None => hint.None?
    case Some(name) =>
      if hint.None? then forall b :: b in backends ==> b.name != name
      else hint.value in backends && hint.value.name == name
  }

  /** With distinct names the loop over the list finds exactly the healthy match of the books. */
  lemma MatchIsAffinityMatch(backends: seq<Backend>, preferred: Option<string>, hint: Option<Backend>)
    requires NamesDistinct(backends) && StandsFor(backends, preferred, hint)
    ensures Match(backends, preferred) == AffinityMatch(backends, HealthySet(backends), hint)
  {
  }

  /** A decision that answers grant g, charged one unit. */
  ghost predicate Answers(d: Decision, g: Grant<Backend, Counter>, hit: bool)
    reads d
  {
    && g.Granted? && !d.fired && d.backend == g.backend && d.counter == g.counter && d.amount == 1
    && d.pendingRequests == g.pending && d.pendingCost == 0 && d.cacheHit == hit
  }

  class KVAware {
    var backends: seq<Backend>
    var next: nat
    var loads: map<Backend, Counter>
    const store: MemoryStore?
    /** Every counter this instance allocated, with the backend it was allocated for. */
    ghost var owner: map<Counter, Backend>

    ghost function Known(): set<Counter>
      reads this
    {
      owner.Keys
    }

    ghost function Accounts(): Book<Backend, Counter>
      reads this, Known()
    {
      Book(backends, loads, ValuesOf(Known()), next)
    }

    /** The published map is in order, whatever its counters read. */
    ghost predicate Valid()
      reads this
    {
      Consistent(backends, loads, owner)
    }

    constructor (backends: seq<Backend>, store: MemoryStore?)
      ensures Valid() && fresh(Known()) && this.store == store && forall c :: c in Known() ==> c.value == 0
      ensures Republished(Book([], map[], map[], 0), backends, Accounts())
    {
      next := 0;
      this.store := store;
      new;
      ghost var empty: Book<Backend, Counter> := Book([], map[], map[], 0);
      this.loads, this.owner := Rebind(map[], backends, map[], empty);
      this.backends := backends;
    }

    method SetBackends(backends: seq<Backend>)
      requires Valid()
      modifies this
      ensures Valid() && old(Known()) <= Known() && fresh(Known() - old(Known()))
      ensures Republished(old(Accounts()), backends, Accounts())
    {
      ghost var before := Accounts();
      var updated: map<Backend, Counter>;
      ghost var grown: map<Counter, Backend>;
      updated, grown := Rebind(loads, backends, owner, before);
      ghost var after := Book(backends, updated, ValuesOf(grown.Keys), next);
      this.backends := backends;
      loads, owner := updated, grown;
      assert Accounts() == after;
    }

    /** The loop over the list for the preferred name. */
    method FindPreferred(name: string) returns (found: Backend?)
      ensures found == match FirstNamed(backends, name) { case None => null case Some(b) => b }
    {
      for i := 0 to |backends|
        invariant FirstNamed(backends, name) == FirstNamed(backends[i..], name)
      {
        var backend := backends[i];
        assert backends[i..][1..] == backends[i + 1..];
        if backend.name != name || !backend.healthy {
          continue;
        }
        return backend;
      }
      return null;
    }

    /** The affinity path: one unit on the matched backend. */
    method Serve(backend: Backend) returns (d: Decision)
      requires Valid() && backend in backends
      modifies Known()
      ensures Valid() && fresh(d) && backend in loads && loads[backend] in old(Accounts()).values
      ensures var (book, g) := Charge(old(Accounts()), backend, 1);
              Accounts() == book && Answers(d, g, true)
    {
      ghost var before := Accounts();
      ConsistentIsWellFormed(backends, loads, owner, next);
      assert backend in before.backends;
      var load := loads[backend];
      var pendingAfter := load.Add(1);
      assert ValuesOf(Known()) == before.values[load := pendingAfter];
      d := new Decision(backend, pendingAfter, 0, true, load, 1);
    }

    /** The fallback. */
    method SelectLeastPending() returns (r: Selection)
      requires Valid() && next < TICKET_LIMIT && backends != []
      modifies this`next, Known()
      ensures Valid() && backends == old(backends) && loads == old(loads) && owner == old(owner)
      ensures var (book, g) := Books.Select(old(Accounts()), old(HealthySet(backends)), 1);
              && Accounts() == book
              && (r.Selected? <==> g.Granted?)
              && (r.Selected? ==> fresh(r.decision) && Answers(r.decision, g, false))
    {
      ghost var before := Accounts();
      ConsistentIsWellFormed(backends, loads, owner, next);
      next := next + 1;
      var chosen, chosenLoad, pendingAfter := ScanAndCharge(backends, loads, next - 1, 1, Known(), before);
      if chosen == null {
        return NoHealthyBackend;
      }
      var decision := new Decision(chosen, pendingAfter, 0, false, chosenLoad, 1);
      return Selected(decision);
    }

    /** Select after the store, whatever it is, has answered `preferred` (None for a miss or an
        error). The cache-hit flag tells which of the two ways the backend was found. */
    method SelectPreferred(preferred: Option<string>) returns (r: Selection)
      requires Valid() && next < TICKET_LIMIT && backends != []
      modifies this`next, Known()
      ensures Valid() && backends == old(backends) && loads == old(loads) && owner == old(owner)
      ensures var found := old(Match(backends, preferred));
              var (book, g) := SelectOr(old(Accounts()), old(HealthySet(backends)), found);
              && Accounts() == book
              && (r.Selected? <==> g.Granted?)
              && (r.Selected? ==> fresh(r.decision) && Answers(r.decision, g, found.Some?))
    {
      if preferred.Some? {
        var backend := FindPreferred(preferred.value);
        if backend != null {
          assert backend in Accounts().backends;
          var hit := Serve(backend);
          return Selected(hit);
        }
      }
      r := SelectLeastPending();
    }

    /** Select with the in-memory store: a cache hit is exactly a preferred, listed, healthy
        backend, and it is served. */
    method Select(key: string, now: int) returns (r: Selection)
      requires Valid() && next < TICKET_LIMIT
      requires store != null ==> store.Valid() && store.clock <= now
      modifies this`next, Known(), store
      ensures Valid() && backends == old(backends) && loads == old(loads) && owner == old(owner)
      ensures store != null ==> store.Valid() && store.log == old(store.log) && store.clock <= now
      ensures var found := old(Match(backends, Preferred(store, key, now)));
              var (book, g) := SelectOr(old(Accounts()), old(HealthySet(backends)), found);
              && Accounts() == book
              && (r.Selected? <==> g.Granted?)
              && (r.Selected? ==> fresh(r.decision) && Answers(r.decision, g, found.Some?))
    {
      if |backends| == 0 {
        return NoHealthyBackend;
      }
      var preferred := Ask(key, now);
      r := SelectPreferred(preferred);
    }

    method Ask(key: string, now: int) returns (preferred: Option<string>)
      requires store != null ==> store.Valid() && store.clock <= now
      modifies store
      ensures preferred == old(Preferred(store, key, now))
      ensures store != null ==> store.Valid() && store.log == old(store.log) && store.clock <= now
    {
      preferred := None;
      if store != null && key != "" {
        preferred := store.PreferredBackend(key, now);
      }
    }

    method HasHealthyBackend() returns (r: bool)
      ensures r <==> exists b :: b in backends && b.healthy
    {
      r := AnyHealthy(backends);
    }
  }
}
