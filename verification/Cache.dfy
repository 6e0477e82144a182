/** The in-memory affinity store: a map with expiry times that are enforced lazily, specified by
    the history of the calls that wrote it. Times are nanoseconds. */
module Cache {
  import opened Sums
  import opened GoText

  const DEFAULT_TTL: int := 600_000_000_000

  datatype Entry = Entry(backend: string, expiresAt: int)

  /** One call of RememberBackend and the time at which it took the lock. */
  datatype Remember = Remember(key: string, backend: string, ttl: int, at: int)
  {
    predicate Effective()
    {
      TrimSpace(key) != "" && TrimSpace(backend) != ""
    }

    predicate Writes(k: string)
    {
      Effective() && TrimSpace(key) == k
    }

    function Stored(): Entry
    {
      Entry(TrimSpace(backend), Expiry())
    }

    function Expiry(): int
    {
      at + if ttl <= 0 then DEFAULT_TTL else ttl
    }
  }

  /** The last position of s at which p holds. */
  function LastWhere<T>(s: seq<T>, p: T -> bool): (r: Option<nat>)
    ensures r.Some? ==> r.value < |s| && p(s[r.value])
  {
    if s == [] then None
    else if p(s[|s| - 1]) then Some(|s| - 1)
    else LastWhere(s[..|s| - 1], p)
  }

  lemma {:induction false} LastWhereIff<T>(s: seq<T>, p: T -> bool, i: nat)
    ensures LastWhere(s, p) == Some(i) <==> i < |s| && p(s[i]) && forall j :: i < j < |s| ==> !p(s[j])
  {
    if s != [] && !p(s[|s| - 1]) {
      LastWhereIff(s[..|s| - 1], p, i);
    }
  }

  lemma LastWhereSnoc<T>(s: seq<T>, x: T, p: T -> bool)
    ensures LastWhere(s + [x], p) == if p(x) then Some(|s|) else LastWhere(s, p)
  {
    assert (s + [x])[..|s|] == s;
  }

  function WritesTo(key: string): Remember -> bool
  {
    (w: Remember) => w.Writes(key)
  }

  /** What the history last stored under a trimmed key. */
  function Latest(log: seq<Remember>, key: string): Option<Entry>
  {
    match LastWhere(log, WritesTo(key))
    case None => None
    case Some(i) => Some(log[i].Stored())
  }

  /** What the history answers to a lookup. */
  function Lookup(log: seq<Remember>, key: string, now: int): Option<string>
  {
    match Latest(log, TrimSpace(key))
    case None => None
    case Some(e) => if now <= e.expiresAt then Some(e.backend) else None
  }

  /** Call i is the last effective one for `key`. */
  ghost predicate LastFor(log: seq<Remember>, key: string, i: nat)
  {
    && i < |log| && log[i].Writes(key)
    && forall j :: i < j < |log| ==> !log[j].Writes(key)
  }

  lemma LatestSnoc(log: seq<Remember>, w: Remember, key: string)
    ensures Latest(log + [w], key) == if w.Writes(key) then Some(w.Stored()) else Latest(log, key)
  {
    LastWhereSnoc(log, w, WritesTo(key));
  }

  /** A lookup is answered with b exactly when the last effective write under its trimmed key
      stored b and has not passed its effective expiry. */
  lemma LookupIff(log: seq<Remember>, key: string, now: int, b: string)
    ensures Lookup(log, key, now) == Some(b) <==>
            exists i: nat :: LastFor(log, TrimSpace(key), i) && TrimSpace(log[i].backend) == b
                             && now <= log[i].at + if log[i].ttl <= 0 then 600_000_000_000 else log[i].ttl
  {
    var p := WritesTo(TrimSpace(key));
    forall i: nat ensures LastWhere(log, p) == Some(i) <==> LastFor(log, TrimSpace(key), i) {
      LastWhereIff(log, p, i);
    }
  }

  /** The map after a write. */
  function Written(entries: map<string, Entry>, w: Remember): map<string, Entry>
  {
    if w.Effective() then entries[TrimSpace(w.key) := w.Stored()] else entries
  }

  /** Everything ever remembered, nothing deleted. */
  function Replayed(log: seq<Remember>): map<string, Entry>
  {
    if log == [] then map[] else Written(Replayed(log[..|log| - 1]), log[|log| - 1])
  }

  lemma ReplayedSnoc(log: seq<Remember>, w: Remember)
    ensures Replayed(log + [w]) == Written(Replayed(log), w)
  {
    assert (log + [w])[..|log|] == log;
  }

  lemma {:induction false} ReplayedIsLatest(log: seq<Remember>, key: string)
    ensures Latest(log, key) == if key in Replayed(log) then Some(Replayed(log)[key]) else None
  {
    if log != [] {
      var n := |log| - 1;
      assert log == log[..n] + [log[n]];
      ReplayedIsLatest(log[..n], key);
      LatestSnoc(log[..n], log[n], key);
    }
  }

  /** What is present is what was remembered last; what is absent was never remembered or has
      expired. */
  ghost predicate Agrees(entries: map<string, Entry>, all: map<string, Entry>, clock: int)
  {
    && (forall k :: k in entries ==> k in all && entries[k] == all[k])
    && (forall k :: k in all && k !in entries ==> all[k].expiresAt < clock)
  }

  class MemoryStore {
    var entries: map<string, Entry>
    ghost var log: seq<Remember>
    ghost var clock: int

    ghost predicate Valid()
      reads this
    {
      Agrees(entries, Replayed(log), clock)
    }

    constructor ()
      ensures Valid() && log == [] && entries == map[] && clock == 0
    {
      entries := map[];
      log := [];
      clock := 0;
    }

    /** The answer is the history's, so whether and when expired entries were deleted does not
        show in it. */
    method PreferredBackend(key: string, now: int) returns (r: Option<string>)
      requires Valid() && clock <= now
      modifies this
      ensures Valid() && log == old(log) && clock == now
      ensures r == Lookup(log, key, now)
      ensures var k := TrimSpace(key);
              entries == if k in old(entries) && k != "" && now > old(entries)[k].expiresAt
                         then old(entries) - {k} else old(entries)
    {
      clock := now;
      ReplayedIsLatest(log, TrimSpace(key));
      var k := TrimSpace(key);
      if k == "" {
        return None;
      }
      if k !in entries {
        return None;
      }
      var entry := entries[k];
      if now > entry.expiresAt {
        entries := entries - {k};
        return None;
      }
      return Some(entry.backend);
    }

    method RememberBackend(key: string, backend: string, ttl: int, now: int)
      requires Valid() && clock <= now
      modifies this
      ensures Valid() && clock == now
      ensures log == old(log) + [Remember(key, backend, ttl, now)]
      ensures entries == Written(old(entries), Remember(key, backend, ttl, now))
    {
      ghost var w := Remember(key, backend, ttl, now);
      ReplayedSnoc(log, w);
      clock := now;
      log := log + [w];
      var k := TrimSpace(key);
      var b := TrimSpace(backend);
      if k == "" || b == "" {
        assert !w.Effective();
        assert entries == Written(old(entries), w);
        assert Agrees(Written(old(entries), w), Replayed(log), clock);
        return;
      }
      var effective := if ttl <= 0 then DEFAULT_TTL else ttl;
      assert w.Effective() && w.Stored() == Entry(b, now + effective);
      entries := entries[k := Entry(b, now + effective)];
    }
  }
}
