/** The ring arithmetic of the selectors: Go's ticket conversion, the order in which a scan
    visits the list, and the two rules (first healthy, first least loaded) that a scan applies. */
module Ring {
  import opened Sums

  const TICKET_LIMIT: nat := 0x8000_0000_0000_0000
  const UINT64_RANGE: nat := 0x1_0000_0000_0000_0000

  /** Go's conversion of a uint64 to a 64-bit int, and its remainder, which truncates. */
  function ToInt64(u: nat): int
    requires u < UINT64_RANGE
  {
    if u < TICKET_LIMIT then u else u - UINT64_RANGE
  }

  function GoRemainder(a: int, n: nat): int
    requires n > 0
  {
    if a >= 0 then a % n else -((-a) % n)
  }

  function StartIndex(ticket: nat, n: nat): int
    requires ticket < UINT64_RANGE && n > 0
  {
    GoRemainder(ToInt64(ticket), n)
  }

  /** The start of a scan is an index of the list exactly when the ticket is below 2^63 or the
      list length divides its distance to 2^64; on every other ticket the scan's first access
      would be at a negative index. */
  lemma StartIsIndexIff(ticket: nat, n: nat)
    requires ticket < UINT64_RANGE && n > 0
    ensures 0 <= StartIndex(ticket, n) < n <==>
            ticket < TICKET_LIMIT || (UINT64_RANGE - ticket) % n == 0
    ensures ticket < TICKET_LIMIT ==> StartIndex(ticket, n) == ticket % n
  {
    var m := (UINT64_RANGE - ticket) % n;
    assert 0 <= m < n;
    if ticket < TICKET_LIMIT {
      assert StartIndex(ticket, n) == ticket % n;
    } else {
      assert -ToInt64(ticket) == UINT64_RANGE - ticket;
      assert StartIndex(ticket, n) == -m;
    }
  }

  /** With three backends the very first ticket outside the domain already starts at -2. */
  lemma StartCanBeNegative()
    ensures StartIndex(TICKET_LIMIT, 3) == -2
  {
    assert TICKET_LIMIT == 3 * 0x2AAA_AAAA_AAAA_AAAA + 2;
  }

  /** The j-th position visited by a scan that starts at `start`. */
  function At(start: nat, j: nat, n: nat): (k: nat)
    requires n > 0
    ensures k < n
  {
    (start + j) % n
  }

  function Ordered<T>(s: seq<T>, start: nat): (r: seq<T>)
    ensures |r| == |s|
    ensures forall j :: 0 <= j < |s| ==> r[j] == s[At(start, j, |s|)]
  {
    seq(|s|, j requires 0 <= j < |s| => s[At(start, j, |s|)])
  }

  lemma ModPlus(a: nat, b: nat, n: nat)
    requires n > 0
    ensures (a + b) % n == (a % n + b) % n
  {
    var q := a / n;
    assert a == q * n + a % n;
    ModMultiple(a % n + b, q, n);
    assert a + b == a % n + b + q * n;
  }

  lemma {:induction false} ModMultiple(a: nat, q: nat, n: nat)
    requires n > 0
    ensures (a + q * n) % n == a % n
  {
    if q > 0 {
      ModMultiple(a, q - 1, n);
      assert a + q * n == a + (q - 1) * n + n;
      ModStep(a + (q - 1) * n, n);
    }
  }

  lemma ModStep(a: nat, n: nat)
    requires n > 0
    ensures (a + n) % n == a % n
  {
    var q, r := a / n, a % n;
    assert a + n == (q + 1) * n + r;
    ModUnique(a + n, q + 1, r, n);
  }

  lemma ModUnique(a: nat, q: nat, r: nat, n: nat)
    requires n > 0 && r < n && a == q * n + r
    ensures a % n == r && a / n == q
  {
    var q', r' := a / n, a % n;
    Distribute(q, q', n);
    AtLeastFactor(q - q', n);
    AtLeastFactor(q' - q, n);
  }

  lemma Distribute(p: int, q: int, n: int)
    ensures (p - q) * n == p * n - q * n && (q - p) * n == q * n - p * n
  {
  }

  lemma AtLeastFactor(d: int, n: nat)
    ensures d >= 1 ==> d * n >= n
  {
  }

  lemma SmallMod(a: nat, n: nat)
    requires n > 0 && a < 2 * n
    ensures a % n == if a < n then a else a - n
  {
    if a < n {
      ModUnique(a, 0, a, n);
    } else {
      ModUnique(a, 1, a - n, n);
    }
  }

  /** The offset at which a scan from `start` visits position k. */
  function OffsetOf(start: nat, k: nat, n: nat): (j: nat)
    requires start < n && k < n
    ensures j < n && At(start, j, n) == k
  {
    SmallMod(start + if k >= start then k - start else k + n - start, n);
    if k >= start then k - start else k + n - start
  }

  /** A scan of a full round visits every position once. */
  lemma AtIsInjective(start: nat, i: nat, j: nat, n: nat)
    requires start < n && i < n && j < n
    ensures At(start, i, n) == At(start, j, n) <==> i == j
  {
    SmallMod(start + i, n);
    SmallMod(start + j, n);
  }

  // ----- First healthy -------------------------------------------------------------------

  function FirstTrue(s: seq<bool>): (r: Option<nat>)
    ensures r.Some? ==> r.value < |s| && s[r.value]
  {
    if s == [] then None
    else match FirstTrue(s[..|s| - 1])
      case Some(k) => Some(k)
      case None => if s[|s| - 1] then Some(|s| - 1) else None
  }

  ghost predicate IsFirstTrue(s: seq<bool>, k: nat)
  {
    k < |s| && s[k] && forall j :: 0 <= j < k ==> !s[j]
  }

  lemma {:induction false} FirstTrueCorrect(s: seq<bool>)
    ensures FirstTrue(s).None? <==> forall j :: 0 <= j < |s| ==> !s[j]
    ensures forall k: nat :: FirstTrue(s) == Some(k) <==> IsFirstTrue(s, k)
  {
    if s != [] {
      FirstTrueCorrect(s[..|s| - 1]);
    }
  }

  /** What a round-robin scan of `health` from `start` returns. */
  function FirstHealthy(health: seq<bool>, start: nat): (r: Option<nat>)
    ensures r.Some? ==> r.value < |health| && health[r.value]
  {
    match FirstTrue(Ordered(health, start))
    case None => None
    case Some(j) => Some(At(start, j, |health|))
  }

  // ----- First least loaded --------------------------------------------------------------

  /** The candidate a scan holds after seeing `seen` (None for a backend it skipped, Some(load)
      for one whose counter it read): the running minimum, kept on ties. */
  function Best(seen: seq<Option<int>>): (r: Option<nat>)
    ensures r.Some? ==> r.value < |seen| && seen[r.value].Some?
  {
    if seen == [] then None
    else
      var b := Best(seen[..|seen| - 1]);
      var last := seen[|seen| - 1];
      if last.None? then b
      else if b.None? || last.value < seen[b.value].value then Some(|seen| - 1)
      else b
  }

  ghost predicate IsFirstLeast(seen: seq<Option<int>>, k: nat)
  {
    && k < |seen| && seen[k].Some?
    && forall j :: 0 <= j < |seen| && seen[j].Some? ==>
         seen[k].value <= seen[j].value && (j < k ==> seen[k].value < seen[j].value)
  }

  /** The running minimum is the least reading, the earliest one among equals, and there is
      none only if every backend was skipped. */
  lemma {:induction false} BestIsFirstLeast(seen: seq<Option<int>>)
    ensures Best(seen).None? <==> forall j :: 0 <= j < |seen| ==> seen[j].None?
    ensures forall k: nat :: Best(seen) == Some(k) <==> IsFirstLeast(seen, k)
  {
    if seen != [] {
      var n := |seen| - 1;
      BestIsFirstLeast(seen[..n]);
      var b := Best(seen[..n]);
      if b.Some? {
        assert IsFirstLeast(seen[..n], b.value);
      }
      var r := Best(seen);
      if r.Some? {
        assert IsFirstLeast(seen, r.value);
        forall k: nat | IsFirstLeast(seen, k) ensures k == r.value {
        }
      }
    }
  }

  /** The position that a least-loaded scan of `view` from `start` chooses. */
  function Choose(view: seq<Option<int>>, start: nat): (r: Option<nat>)
    ensures r.Some? ==> r.value < |view| && view[r.value].Some?
  {
    match Best(Ordered(view, start))
    case None => None
    case Some(j) => Some(At(start, j, |view|))
  }

  /** The choice is a least loaded healthy position, and it is refused only if all are skipped. */
  lemma ChooseIsLeast(view: seq<Option<int>>, start: nat)
    requires start < |view|
    ensures Choose(view, start).None? <==> forall k :: 0 <= k < |view| ==> view[k].None?
    ensures var r := Choose(view, start); r.Some? ==>
            forall k :: 0 <= k < |view| && view[k].Some? ==> view[r.value].value <= view[k].value
  {
    var n := |view|;
    var seen := Ordered(view, start);
    BestIsFirstLeast(seen);
    forall k | 0 <= k < n ensures view[k] == seen[OffsetOf(start, k, n)] {
    }
    var b := Best(seen);
    if b.Some? {
      assert IsFirstLeast(seen, b.value);
    }
  }

  /** When every reading is the same the least-loaded rule is the first-healthy rule. */
  lemma {:induction false} EqualLoadsChooseFirst(seen: seq<Option<int>>, up: seq<bool>, v: int)
    requires |seen| == |up|
    requires forall j :: 0 <= j < |seen| ==> seen[j] == if up[j] then Some(v) else None
    ensures Best(seen) == FirstTrue(up)
  {
    if seen != [] {
      EqualLoadsChooseFirst(seen[..|seen| - 1], up[..|up| - 1], v);
    }
  }
}
