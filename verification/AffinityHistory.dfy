/** The affinity store as the server fills it: the history of successful requests, and what a
    lookup answers in terms of it. */
module AffinityHistory {
  import opened Sums
  import opened GoText
  import opened Cache

  /** A request that was answered: its cache key, the backend that answered, and when that was
      recorded. */
  datatype Success = Success(key: string, backend: string, at: int)
  {
    /** Counts for this trimmed key; nothing is remembered under a blank key or name. */
    predicate Under(k: string)
    {
      k != "" && TrimSpace(key) == k && TrimSpace(backend) != ""
    }
  }

  function Lifetime(ttl: int): int
  {
    if ttl <= 0 then DEFAULT_TTL else ttl
  }

  /** The writes that one success causes, and those of a whole history. */
  function RememberedOne(ttl: int, s: Success): seq<Remember>
  {
    if s.key == "" || s.backend == "" then [] else [Remember(s.key, s.backend, ttl, s.at)]
  }

  function Remembered(ttl: int, ss: seq<Success>): seq<Remember>
  {
    if ss == [] then [] else Remembered(ttl, ss[..|ss| - 1]) + RememberedOne(ttl, ss[|ss| - 1])
  }

  lemma RememberedSnoc(ttl: int, ss: seq<Success>, s: Success)
    ensures Remembered(ttl, ss + [s]) == Remembered(ttl, ss) + RememberedOne(ttl, s)
  {
    assert (ss + [s])[..|ss|] == ss;
  }

  function UnderKey(k: string): Success -> bool
  {
    (s: Success) => s.Under(k)
  }

  function Expected(ttl: int, s: Success): Entry
  {
    Entry(TrimSpace(s.backend), s.at + Lifetime(ttl))
  }

  lemma LatestAfterSuccess(log: seq<Remember>, ttl: int, s: Success, k: string)
    ensures Latest(log + RememberedOne(ttl, s), k) == if s.Under(k) then Some(Expected(ttl, s)) else Latest(log, k)
  {
    var w := Remember(s.key, s.backend, ttl, s.at);
    if s.key == "" || s.backend == "" {
      assert log + [] == log;
    } else {
      assert w.Writes(k) == s.Under(k) && w.Stored() == Expected(ttl, s);
      LatestSnoc(log, w, k);
    }
  }

  lemma {:induction false} LatestIsLastSuccess(ttl: int, ss: seq<Success>, k: string)
    ensures Latest(Remembered(ttl, ss), k)
            == match LastWhere(ss, UnderKey(k))
               case None => None
               case Some(j) => Some(Expected(ttl, ss[j]))
  {
    if ss != [] {
      var n := |ss| - 1;
      LatestIsLastSuccess(ttl, ss[..n], k);
      LatestAfterSuccess(Remembered(ttl, ss[..n]), ttl, ss[n], k);
    }
  }

  /** Success j is the latest one under a trimmed key. */
  ghost predicate LatestUnder(ss: seq<Success>, k: string, j: nat)
  {
    && j < |ss| && ss[j].Under(k)
    && forall i :: j < i < |ss| ==> !ss[i].Under(k)
  }

  /** Success j makes a lookup at `now` answer with this name. */
  ghost predicate CallsFor(ss: seq<Success>, ttl: int, key: string, now: int, name: string, j: nat)
  {
    && LatestUnder(ss, TrimSpace(key), j) && TrimSpace(ss[j].backend) == name
    && now <= ss[j].at + Lifetime(ttl)
  }

  ghost predicate Called(ss: seq<Success>, ttl: int, key: string, now: int, name: string)
  {
    exists j: nat :: CallsFor(ss, ttl, key, now, name, j)
  }

  /** A lookup answers with a name exactly when the latest successful request under its trimmed
      key was answered by the backend of that name, and has not outlived the effective ttl. */
  lemma LookupIsLatestSuccess(ttl: int, ss: seq<Success>, key: string, now: int, name: string)
    ensures Lookup(Remembered(ttl, ss), key, now) == Some(name) <==> Called(ss, ttl, key, now, name)
  {
    LatestIsLastSuccess(ttl, ss, TrimSpace(key));
    LastSuccessIff(ss, TrimSpace(key));
    var last := LastWhere(ss, UnderKey(TrimSpace(key)));
    if last.Some? {
      assert CallsFor(ss, ttl, key, now, name, last.value) <==>
             TrimSpace(ss[last.value].backend) == name && now <= ss[last.value].at + Lifetime(ttl);
    }
  }

  lemma LastSuccessIff(ss: seq<Success>, k: string)
    ensures forall j: nat :: LastWhere(ss, UnderKey(k)) == Some(j) <==> LatestUnder(ss, k, j)
  {
    forall j: nat ensures LastWhere(ss, UnderKey(k)) == Some(j) <==> LatestUnder(ss, k, j) {
      LastWhereIff(ss, UnderKey(k), j);
    }
  }
}
