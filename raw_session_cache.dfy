/**
 * The client-side cache of app/utils/rawSessionCache.client.ts: raw sessions
 * by year and then by session id. `setRawSessions` merges a list into one
 * year's bucket, `getRawSession` looks one up, `clearRawCache` forgets all.
 */
module RawSessionCache {
  import opened Wrappers
  import opened Text
  import opened Sessions

  type Buckets = map<string, map<string, RawSession>>

  /** The body of the `forEach` callback: a session with a non-empty `id` is stored under it. */
  function StoreOne(bucket: map<string, RawSession>, s: RawSession): map<string, RawSession> {
    if Truthy(Flat(s, "id")) then bucket[Flat(s, "id").value := s] else bucket
  }

  /** The bucket after the `forEach` over `sessions`, applied in order. */
  function StoreAll(bucket: map<string, RawSession>, sessions: seq<RawSession>): map<string, RawSession>
    decreases |sessions|
  {
    if sessions == [] then bucket
    else StoreOne(StoreAll(bucket, sessions[..|sessions| - 1]), sessions[|sessions| - 1])
  }

  /** The last session of `sessions` whose `id` is the non-empty `id`. */
  function LastWithId(sessions: seq<RawSession>, id: string): (r: Option<RawSession>)
    ensures r.None? <==> (id == "" || forall i :: 0 <= i < |sessions| ==> Flat(sessions[i], "id") != Some(id))
    ensures r.Some? ==> exists i :: 0 <= i < |sessions| && sessions[i] == r.value && Flat(sessions[i], "id") == Some(id)
                          && forall j :: i < j < |sessions| ==> Flat(sessions[j], "id") != Some(id)
    decreases |sessions|
  {
    if sessions == [] || id == "" then None
    else
      var last := sessions[|sessions| - 1];
      var prefix := sessions[..|sessions| - 1];
      assert forall i :: 0 <= i < |prefix| ==> prefix[i] == sessions[i];
      if Flat(last, "id") == Some(id) then Some(last) else LastWithId(prefix, id)
  }

  /** `setRawSessions(year, sessions)` as a function of the cache: the year's bucket, created if absent, with the sessions merged in. */
  function SetRawSessionsSpec(cache: Buckets, year: string, sessions: seq<RawSession>): Buckets {
    cache[year := StoreAll(if year in cache then cache[year] else map[], sessions)]
  }

  /** `rawSessionsCache[year]?.[id]`. */
  function Lookup(cache: Buckets, year: string, id: string): Option<RawSession> {
    if year in cache && id in cache[year] then Some(cache[year][id]) else None
  }

  /**
   * After storing `sessions` into a bucket, an id names the last session of
   * the list carrying it; an id no session carries (and the empty id) keeps
   * the bucket's old entry, or stays absent.
   */
  lemma {:induction false} StoreAllLookup(bucket: map<string, RawSession>, sessions: seq<RawSession>, id: string)
    ensures LastWithId(sessions, id).Some? ==> id in StoreAll(bucket, sessions) && StoreAll(bucket, sessions)[id] == LastWithId(sessions, id).value
    ensures LastWithId(sessions, id).None? ==> (id in StoreAll(bucket, sessions) <==> id in bucket)
    ensures LastWithId(sessions, id).None? && id in bucket ==> StoreAll(bucket, sessions)[id] == bucket[id]
    decreases |sessions|
  {
    if sessions != [] {
      StoreAllLookup(bucket, sessions[..|sessions| - 1], id);
    }
  }

  /**
   * `setRawSessions` creates the year's bucket even for an empty list, lets
   * the last session with a given id win, skips sessions whose id is empty
   * or absent, and leaves other ids of the year and all other years as they were.
   */
  lemma SetRawSessionsLookup(cache: Buckets, year: string, sessions: seq<RawSession>, y: string, id: string)
    ensures year in SetRawSessionsSpec(cache, year, sessions)
    ensures y == year && LastWithId(sessions, id).Some? ==> Lookup(SetRawSessionsSpec(cache, year, sessions), y, id) == LastWithId(sessions, id)
    ensures y != year || LastWithId(sessions, id).None? ==> Lookup(SetRawSessionsSpec(cache, year, sessions), y, id) == Lookup(cache, y, id)
  {
    StoreAllLookup(if year in cache then cache[year] else map[], sessions, id);
  }

  /** Storing a list whose sessions all lack an id still leaves an (empty or unchanged) bucket for the year. */
  lemma SetWithoutIdsKeepsBucket(cache: Buckets, year: string, sessions: seq<RawSession>)
    requires forall i :: 0 <= i < |sessions| ==> !Truthy(Flat(sessions[i], "id"))
    ensures year in SetRawSessionsSpec(cache, year, sessions)
    ensures SetRawSessionsSpec(cache, year, sessions)[year] == if year in cache then cache[year] else map[]
  {
    var b := if year in cache then cache[year] else map[];
    forall id
      ensures (id in StoreAll(b, sessions) <==> id in b) && (id in b ==> StoreAll(b, sessions)[id] == b[id])
    {
      StoreAllLookup(b, sessions, id);
    }
  }

  /** The module variable `rawSessionsCache`. */
  class RawCache {
    var cache: Buckets

    /** The cache at module load is empty. */
    constructor ()
      ensures cache == map[]
    {
      cache := map[];
    }

    /** `setRawSessions(year, sessions)`. */
    method SetRawSessions(year: string, sessions: seq<RawSession>)
      modifies this
      ensures cache == SetRawSessionsSpec(old(cache), year, sessions)
    {
      if year !in cache {
        cache := cache[year := map[]];
      }
      ghost var start := cache[year];
      var i := 0;
      while i < |sessions|
        invariant 0 <= i <= |sessions|
        invariant year in cache && cache == old(cache)[year := cache[year]]
        invariant start == if year in old(cache) then old(cache)[year] else map[]
        invariant cache[year] == StoreAll(start, sessions[..i])
      {
        assert sessions[..i + 1][..i] == sessions[..i];
        var s := sessions[i];
        if Truthy(Flat(s, "id")) {
          cache := cache[year := cache[year][Flat(s, "id").value := s]];
        }
        i := i + 1;
      }
      assert sessions[..|sessions|] == sessions;
    }

    /** `getRawSession(year, id)`: a lookup that changes nothing. */
    method GetRawSession(year: string, id: string) returns (r: Option<RawSession>)
      ensures r.Some? <==> year in cache && id in cache[year]
      ensures r.Some? ==> r.value == cache[year][id]
    {
      if year in cache && id in cache[year] {
        return Some(cache[year][id]);
      }
      return None;
    }

    /** `clearRawCache()`: afterwards every lookup misses. */
    method ClearRawCache()
      modifies this
      ensures forall y, id :: Lookup(cache, y, id).None?
    {
      cache := map[];
    }
  }
}
