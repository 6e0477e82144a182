/** The account book of a load-tracking selector: the published list, the published map from
    backend to counter, what each counter holds, and the ticket counter. B and C are the
    identities of backends and counters. The selector classes are specified by these functions,
    and the run and interleaving theorems are about them. */
module Books {
  import opened Sums
  import opened Ring

  datatype Book<B(==), C(==)> =
    Book(backends: seq<B>, loads: map<B, C>, values: map<C, int>, next: nat)

  datatype Grant<B, C> = Refused | Granted(backend: B, counter: C, pending: int)

  /** The published map is defined on exactly the listed backends, and no two of them share a
      counter. */
  ghost predicate WellFormed<B, C>(a: Book<B, C>)
  {
    && (forall b :: b in a.loads ==> b in a.backends)
    && (forall b :: b in a.backends ==> b in a.loads)
    && (forall b :: b in a.loads ==> a.loads[b] in a.values)
    && (forall b, d :: b in a.loads && d in a.loads && a.loads[b] == a.loads[d] ==> b == d)
  }

  ghost predicate Distinct<B>(s: seq<B>)
  {
    forall i, j :: 0 <= i < j < |s| ==> s[i] != s[j]
  }

  /** What a scan learns at backend b: nothing if it is unhealthy (or has no counter), else the
      value of its counter. */
  function Reading<B, C>(a: Book<B, C>, healthy: set<B>, b: B): Option<int>
  {
    if b in healthy && b in a.loads && a.loads[b] in a.values then Some(a.values[a.loads[b]]) else None
  }

  function View<B, C>(a: Book<B, C>, healthy: set<B>): (v: seq<Option<int>>)
    ensures |v| == |a.backends|
    ensures forall k :: 0 <= k < |v| ==> v[k] == Reading(a, healthy, a.backends[k])
  {
    seq(|a.backends|, k requires 0 <= k < |a.backends| => Reading(a, healthy, a.backends[k]))
  }

  function Health<B>(backends: seq<B>, healthy: set<B>): (h: seq<bool>)
    ensures |h| == |backends|
    ensures forall k :: 0 <= k < |h| ==> h[k] == (backends[k] in healthy)
  {
    seq(|backends|, k requires 0 <= k < |backends| => backends[k] in healthy)
  }

  /** What backend b's counter reads. */
  function LoadOn<B, C>(a: Book<B, C>, b: B): int
  {
    if b in a.loads && a.loads[b] in a.values then a.values[a.loads[b]] else 0
  }

  /** Charging a backend: its counter grows by cost and the new value is reported. */
  function Charge<B, C>(a: Book<B, C>, b: B, cost: int): (Book<B, C>, Grant<B, C>)
    requires b in a.loads && a.loads[b] in a.values
  {
    var c := a.loads[b];
    (a.(values := a.values[c := a.values[c] + cost]), Granted(b, c, a.values[c] + cost))
  }

  /** One undisturbed least-loaded Select: an empty list costs no ticket; otherwise a ticket is
      taken and the first least loaded healthy backend from it, if any, is charged. */
  function Select<B, C>(a: Book<B, C>, healthy: set<B>, cost: int): (Book<B, C>, Grant<B, C>)
  {
    if a.backends == [] then (a, Refused)
    else
      var ticketed := a.(next := a.next + 1);
      match Choose(View(a, healthy), a.next % |a.backends|)
      case None => (ticketed, Refused)
      case Some(k) =>
        assert Reading(a, healthy, a.backends[k]).Some?;
        Charge(ticketed, a.backends[k], cost)
  }

  /** One undisturbed round-robin Select: the new ticket count and the backend. */
  function RoundRobinPick<B>(backends: seq<B>, healthy: set<B>, next: nat): (nat, Option<B>)
  {
    if backends == [] then (next, None)
    else match FirstHealthy(Health(backends, healthy), next % |backends|)
      case None => (next + 1, None)
      case Some(k) => (next + 1, Some(backends[k]))
  }

  /** The healthy ones among the listed backends, in list order. */
  function Up<B(==)>(backends: seq<B>, healthy: set<B>): seq<B>
  {
    if backends == [] then []
    else
      var n := |backends| - 1;
      Up(backends[..n], healthy) + if backends[n] in healthy then [backends[n]] else []
  }

  function EffectiveCost(estimated: int): (cost: int)
    ensures cost >= 1 && cost >= estimated && (cost == 1 || cost == estimated)
  {
    if estimated < 1 then 1 else estimated
  }

  /** A published list replaced by another: retained backends keep their counter, new ones get a
      new counter at zero, no counter changes its value. */
  ghost predicate Republished<B, C>(a: Book<B, C>, backends: seq<B>, r: Book<B, C>)
  {
    && r.backends == backends
    && r.next == a.next
    && (forall b :: b in r.loads ==> b in backends)
    && (forall b :: b in backends ==> b in r.loads)
    && (forall b :: b in r.loads && b in a.loads ==> r.loads[b] == a.loads[b])
    && (forall b :: b in r.loads && b !in a.loads ==>
          r.loads[b] !in a.values && r.loads[b] in r.values && r.values[r.loads[b]] == 0)
    && (forall b, d :: b in r.loads && b !in a.loads && d in r.loads && d !in a.loads && b != d ==>
          r.loads[b] != r.loads[d])
    && (forall c :: c in a.values ==> c in r.values && r.values[c] == a.values[c])
  }

  lemma RepublishedWellFormed<B, C>(a: Book<B, C>, backends: seq<B>, r: Book<B, C>)
    requires WellFormed(a) && Republished(a, backends, r)
    ensures WellFormed(r)
  {
    assert forall b :: b in r.loads && b in a.loads ==> r.loads[b] in a.values;
  }

  /** Select succeeds exactly when some listed backend is healthy, takes the least loaded one,
      and changes the books of no other backend. */
  lemma SelectServesLeastLoaded<B, C>(a: Book<B, C>, healthy: set<B>, cost: int)
    requires WellFormed(a)
    ensures var (r, g) := Select(a, healthy, cost);
            && WellFormed(r) && r.backends == a.backends && r.loads == a.loads
            && r.next == (if a.backends == [] then a.next else a.next + 1)
            && (g.Refused? <==> forall b :: b in a.backends ==> b !in healthy)
            && (g.Granted? ==>
                  && g.backend in a.backends && g.backend in healthy && g.counter == a.loads[g.backend]
                  && g.pending == a.values[g.counter] + cost
                  && r.values == a.values[g.counter := g.pending]
                  && (forall b :: b in a.backends && b in healthy ==>
                        a.values[g.counter] <= a.values[a.loads[b]]))
            && (g.Refused? ==> r.values == a.values)
  {
    if a.backends != [] {
      var v := View(a, healthy);
      ChooseIsLeast(v, a.next % |a.backends|);
      forall b | b in a.backends && b in healthy
        ensures exists k :: 0 <= k < |v| && a.backends[k] == b && v[k] == Some(a.values[a.loads[b]])
      {
        var k :| 0 <= k < |a.backends| && a.backends[k] == b;
        assert v[k] == Reading(a, healthy, b);
      }
    }
  }

  // ----- Affinity ------------------------------------------------------------------------

  /** The backend that the affinity lookup names, if it is listed and healthy. */
  function AffinityMatch<B(==)>(backends: seq<B>, healthy: set<B>, hint: Option<B>): Option<B>
  {
    if hint.Some? && hint.value in backends && hint.value in healthy then hint else None
  }

  /** An undisturbed kv_aware Select: a match is charged without a ticket, and without one (or
      without a counter for it) the least loaded backend is taken. */
  function SelectOr<B, C>(a: Book<B, C>, healthy: set<B>, found: Option<B>): (Book<B, C>, Grant<B, C>)
  {
    if found.Some? && found.value in a.loads && a.loads[found.value] in a.values
    then Charge(a, found.value, 1)
    else Select(a, healthy, 1)
  }

  /** With a healthy match or not, some healthy backend is served whenever there is one, and a
      match is what is served. */
  lemma SelectOrServes<B, C>(a: Book<B, C>, healthy: set<B>, found: Option<B>)
    requires WellFormed(a) && (found.Some? ==> found.value in a.backends && found.value in healthy)
    ensures var (r, g) := SelectOr(a, healthy, found);
            && WellFormed(r)
            && (g.Refused? <==> forall b :: b in a.backends ==> b !in healthy)
            && (g.Granted? ==> g.backend in a.backends && g.backend in healthy && g.counter == a.loads[g.backend])
            && (found.Some? ==> g.Granted? && g.backend == found.value)
            && r.next == (if found.Some? || a.backends == [] then a.next else a.next + 1)
            && (g.Granted? ==> g.pending == a.values[g.counter] + 1 && r.values == a.values[g.counter := g.pending])
            && (g.Refused? ==> r.values == a.values)
  {
    SelectServesLeastLoaded(a, healthy, 1);
  }
}
