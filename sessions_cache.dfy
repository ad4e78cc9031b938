/**
 * The process-wide cache of app/utils/sessionsCache.server.ts: the conference
 * list, the raw sessions of each conference keyed by conference id, and the
 * two flags guarding initialisation. `Initialize` is the specification of
 * one call of `initializeCache`; `GlobalCache` holds the module variables
 * and its methods update them as the source does.
 */
module SessionsCache {
  import opened Wrappers
  import opened Seqs
  import opened Sessions
  import opened Upstream

  /** The cache's module state; `keys` is the order `Object.keys(sessionsCache)` lists. */
  datatype CacheState = CacheState(
    initialized: bool,
    initializing: bool,
    conferences: seq<Conference>,
    keys: seq<string>,
    sessions: map<string, seq<RawSession>>)

  const Empty := CacheState(false, false, [], [], map[])

  /** The key order lists every stored conference id exactly once. */
  ghost predicate KeysMatch(keys: seq<string>, sessions: map<string, seq<RawSession>>) {
    NoDuplicates(keys) && forall k :: k in sessions <==> k in keys
  }

  ghost predicate WellFormed(st: CacheState) {
    KeysMatch(st.keys, st.sessions)
  }

  /** The ids of a conference list, in order. */
  function Ids(cs: seq<Conference>): (r: seq<string>)
    ensures |r| == |cs| && forall i :: 0 <= i < |cs| ==> r[i] == cs[i].id
  {
    seq(|cs|, i requires 0 <= i < |cs| => cs[i].id)
  }

  /** The sessions of one conference as `fetchSessionsFromApi` gets them. */
  type Fetcher = string -> Result<seq<RawSession>, FetchError>

  function SessionFetcher(src: Source): Fetcher {
    id => FetchSessions(src, id)
  }

  /**
   * The `for` loop over the conferences: fetch each one's sessions in turn
   * and store them under its id (a new key joins the end of the key order),
   * stopping at the first failure, whose error is returned.
   */
  function FillSessions(fetch: Fetcher, cs: seq<Conference>, keys: seq<string>, sessions: map<string, seq<RawSession>>)
    : (seq<string>, map<string, seq<RawSession>>, Option<FetchError>)
    decreases |cs|
  {
    if cs == [] then (keys, sessions, None)
    else match fetch(cs[0].id)
      case Failure(e) => (keys, sessions, Some(e))
      case Success(v) =>
        FillSessions(fetch, cs[1..], if cs[0].id in sessions then keys else keys + [cs[0].id], sessions[cs[0].id := v])
  }

  /**
   * One call of `initializeCache()`: nothing happens while the cache is
   * initialised or initialising; otherwise the cache is cleared, the
   * conference list fetched and stored, then each conference's sessions
   * fetched and stored in order. The error of the first failing fetch is
   * returned; the flag `initializing` always ends false.
   */
  function Initialize(st: CacheState, src: Source): (CacheState, Option<FetchError>) {
    if st.initialized || st.initializing then (st, None)
    else match FetchConferences(src)
      case Failure(e) => (Empty, Some(e))
      case Success(cs) =>
        var (keys, sessions, err) := FillSessions(SessionFetcher(src), cs, [], map[]);
        (CacheState(err.None?, false, cs, keys, sessions), err)
  }

  // ---------------------------------------------------------------------------
  // What initialisation promises

  /** How many conferences, from the first, have sessions that fetch without error. */
  function FetchedPrefix(fetch: Fetcher, cs: seq<Conference>): (n: nat)
    ensures n <= |cs|
    ensures forall i :: 0 <= i < n ==> fetch(cs[i].id).Success?
    ensures n < |cs| ==> fetch(cs[n].id).Failure?
  {
    if cs == [] || fetch(cs[0].id).Failure? then 0
    else 1 + FetchedPrefix(fetch, cs[1..])
  }

  /** The session map holding the fetched sessions of each id in `ids`. */
  function Stored(fetch: Fetcher, ids: seq<string>): (m: map<string, seq<RawSession>>)
    requires forall id :: id in ids ==> fetch(id).Success?
    ensures forall id :: id in m <==> id in ids
  {
    map id | id in ids :: fetch(id).value
  }

  /** One successful step of the loop appends to the key order only a new id, and stores that id's sessions. */
  lemma FillStep(fetch: Fetcher, done: seq<string>, id: string)
    requires forall k :: k in done ==> fetch(k).Success?
    requires fetch(id).Success?
    ensures (if id in Stored(fetch, done) then Dedup(done) else Dedup(done) + [id]) == Dedup(done + [id])
    ensures Stored(fetch, done)[id := fetch(id).value] == Stored(fetch, done + [id])
  {
    DedupSnoc(done, id);
  }

  /** The ids of the first `n` conferences: the first id, then those of the next `n - 1`. */
  lemma IdsPrefix(cs: seq<Conference>, n: nat, done: seq<string>)
    requires 1 <= n <= |cs|
    ensures done + [cs[0].id] + Ids(cs[1..][..n - 1]) == done + Ids(cs[..n])
  {
    assert Ids(cs[..n]) == [cs[0].id] + Ids(cs[1..][..n - 1]);
  }

  /** The loop, started after the ids in `done`, stores the sessions of the conferences up to the first failing one. */
  lemma {:induction false} FillSessionsOutcome(fetch: Fetcher, cs: seq<Conference>, done: seq<string>)
    requires forall id :: id in done ==> fetch(id).Success?
    ensures var n := FetchedPrefix(fetch, cs);
            FillSessions(fetch, cs, Dedup(done), Stored(fetch, done))
            == (Dedup(done + Ids(cs[..n])), Stored(fetch, done + Ids(cs[..n])),
                if n == |cs| then None else Some(fetch(cs[n].id).error))
    decreases |cs|
  {
    var n := FetchedPrefix(fetch, cs);
    if cs == [] || fetch(cs[0].id).Failure? {
      assert n == 0 && Ids(cs[..0]) == [] && done + [] == done;
    } else {
      var id := cs[0].id;
      var done' := done + [id];
      FillStep(fetch, done, id);
      assert FillSessions(fetch, cs, Dedup(done), Stored(fetch, done))
          == FillSessions(fetch, cs[1..], Dedup(done'), Stored(fetch, done'));
      FillSessionsOutcome(fetch, cs[1..], done');
      var n' := FetchedPrefix(fetch, cs[1..]);
      assert n == n' + 1;
      IdsPrefix(cs, n, done);
      assert done' + Ids(cs[1..][..n']) == done + Ids(cs[..n]);
      assert n < |cs| ==> cs[1..][n'] == cs[n];
    }
  }

  /** The loop keeps the key order in step with the session map, from any state where it was. */
  lemma {:induction false} FillSessionsKeysMatch(fetch: Fetcher, cs: seq<Conference>, keys: seq<string>, sessions: map<string, seq<RawSession>>)
    requires KeysMatch(keys, sessions)
    ensures var (keys', sessions', _) := FillSessions(fetch, cs, keys, sessions); KeysMatch(keys', sessions')
    decreases |cs|
  {
    if cs != [] && fetch(cs[0].id).Success? {
      var id := cs[0].id;
      var keys' := if id in sessions then keys else keys + [id];
      if id !in sessions {
        assert forall i :: 0 <= i < |keys| ==> keys'[i] == keys[i];
      }
      FillSessionsKeysMatch(fetch, cs[1..], keys', sessions[id := fetch(id).value]);
    }
  }

  /**
   * After an initialisation that got the conference list `cs`: the list is
   * stored whole, the sessions of every conference before the first failing
   * one are stored under its id (keys in first-occurrence order), the cache
   * counts as initialised exactly when no session fetch failed, and the
   * first failure's error is the one returned.
   */
  lemma InitializeOutcome(st: CacheState, src: Source)
    requires !st.initialized && !st.initializing
    requires FetchConferences(src).Success?
    ensures var cs := FetchConferences(src).value;
            var n := FetchedPrefix(SessionFetcher(src), cs);
            var (st', err) := Initialize(st, src);
            && st'.conferences == cs
            && !st'.initializing
            && (st'.initialized <==> n == |cs|)
            && st'.keys == Dedup(Ids(cs[..n]))
            && (forall id :: id in st'.sessions <==> id in Ids(cs[..n]))
            && (forall id :: id in st'.sessions ==> st'.sessions[id] == FetchSessions(src, id).value)
            && err == (if n == |cs| then None else Some(FetchSessions(src, cs[n].id).error))
  {
    var cs := FetchConferences(src).value;
    var fetch := SessionFetcher(src);
    assert Dedup<string>([]) == [] && Stored(fetch, []) == map[];
    FillSessionsOutcome(fetch, cs, []);
    assert [] + Ids(cs[..FetchedPrefix(fetch, cs)]) == Ids(cs[..FetchedPrefix(fetch, cs)]);
    assert forall id :: fetch(id) == FetchSessions(src, id);
  }

  /** A failed conference fetch leaves the cache empty and not initialising, ready for a retry. */
  lemma InitializeConferenceFailure(st: CacheState, src: Source)
    requires !st.initialized && !st.initializing
    requires FetchConferences(src).Failure?
    ensures Initialize(st, src) == (Empty, Some(FetchConferences(src).error))
    ensures Initialize(Initialize(st, src).0, src) == Initialize(st, src)
  {
  }

  /** While the cache is initialised or initialising, a call changes nothing and throws nothing. */
  lemma InitializeBusyIsNoOp(st: CacheState, src: Source)
    requires st.initialized || st.initializing
    ensures Initialize(st, src) == (st, None)
  {
  }

  /** Initialisation clears first: from any idle state, with the same upstream, it ends in the same state. */
  lemma ReinitializeSameOutcome(st1: CacheState, st2: CacheState, src: Source)
    requires !st1.initialized && !st1.initializing && !st2.initialized && !st2.initializing
    ensures Initialize(st1, src) == Initialize(st2, src)
  {
  }

  /** Initialisation keeps the key order in step with the session map. */
  lemma InitializeWellFormed(st: CacheState, src: Source)
    requires WellFormed(st)
    ensures WellFormed(Initialize(st, src).0)
  {
    if !st.initialized && !st.initializing && FetchConferences(src).Success? {
      InitializeOutcome(st, src);
      var st' := Initialize(st, src).0;
      var cs := FetchConferences(src).value;
      var ids := Ids(cs[..FetchedPrefix(SessionFetcher(src), cs)]);
      forall k
        ensures k in st'.sessions <==> k in st'.keys
      {
        if k in ids {
          var i :| 0 <= i < |ids| && ids[i] == k;
          assert ids[i] in Dedup(ids);
        }
        if k in st'.keys {
          var i :| 0 <= i < |st'.keys| && st'.keys[i] == k;
          assert st'.keys[i] in ids;
        }
      }
    }
  }

  // ---------------------------------------------------------------------------
  // Looking a session up by its raw id

  /** `list.find(s => s.id === sessionId)`. */
  function FindById(list: seq<RawSession>, sessionId: string): (r: Option<RawSession>)
    ensures r.None? <==> forall i :: 0 <= i < |list| ==> Flat(list[i], "id") != Some(sessionId)
    ensures r.Some? ==> exists i :: 0 <= i < |list| && list[i] == r.value && Flat(list[i], "id") == Some(sessionId)
                          && forall j :: 0 <= j < i ==> Flat(list[j], "id") != Some(sessionId)
  {
    if list == [] then None
    else if Flat(list[0], "id") == Some(sessionId) then Some(list[0])
    else
      var r := FindById(list[1..], sessionId);
      assert forall i :: 0 <= i < |list[1..]| ==> list[1..][i] == list[i + 1];
      r
  }

  /** The first session, scanning the conferences in key order, whose raw `id` is `sessionId`. */
  function FirstMatch(keys: seq<string>, sessions: map<string, seq<RawSession>>, sessionId: string): (r: Option<RawSession>)
    requires forall k :: k in keys ==> k in sessions
    ensures r.None? <==> forall k, s :: k in keys && s in sessions[k] ==> Flat(s, "id") != Some(sessionId)
    ensures r.Some? ==> Flat(r.value, "id") == Some(sessionId) && exists k :: k in keys && r.value in sessions[k]
  {
    if keys == [] then None
    else match FindById(sessions[keys[0]], sessionId)
      case Some(s) => Some(s)
      case None =>
        var r := FirstMatch(keys[1..], sessions, sessionId);
        assert forall k :: k in keys ==> k == keys[0] || k in keys[1..];
        r
  }

  /**
   * The match found is the first in key order: when the conference at
   * position `i` is the first whose list `find` matches, the result is what
   * `find` returns in that list.
   */
  lemma {:induction false} FirstMatchIsFirst(keys: seq<string>, sessions: map<string, seq<RawSession>>, sessionId: string, i: nat)
    requires forall k :: k in keys ==> k in sessions
    requires i < |keys| && FindById(sessions[keys[i]], sessionId).Some?
    requires forall j :: 0 <= j < i ==> FindById(sessions[keys[j]], sessionId).None?
    ensures FirstMatch(keys, sessions, sessionId) == FindById(sessions[keys[i]], sessionId)
    decreases i
  {
    if i > 0 {
      assert forall j :: 0 <= j < i - 1 ==> keys[1..][j] == keys[j + 1];
      FirstMatchIsFirst(keys[1..], sessions, sessionId, i - 1);
    }
  }

  // ---------------------------------------------------------------------------
  // The module variables and the exported operations

  class GlobalCache {
    var initialized: bool
    var initializing: bool
    var conferences: seq<Conference>
    var keys: seq<string>
    var sessions: map<string, seq<RawSession>>

    function State(): CacheState
      reads this
    {
      CacheState(initialized, initializing, conferences, keys, sessions)
    }

    /** The invariant every operation keeps: `keys` lists the ids stored in `sessions`, each once. */
    ghost predicate Valid()
      reads this
    {
      WellFormed(State())
    }

    /** The state at module load: empty, neither initialised nor initialising. */
    constructor ()
      ensures State() == Empty && Valid()
    {
      initialized, initializing := false, false;
      conferences, keys, sessions := [], [], map[];
    }

    /** `initializeCache()`. */
    method InitializeCache(src: Source) returns (err: Option<FetchError>)
      requires Valid()
      modifies this
      ensures Valid()
      ensures (State(), err) == Initialize(old(State()), src)
    {
      if initialized || initializing {
        return None;
      }
      initializing := true;
      // clear the existing cache
      conferences := [];
      keys, sessions := [], map[];
      assert Valid();
      var fetched := FetchConferences(src);
      if fetched.Failure? {
        initializing := false;
        return Some(fetched.error);
      }
      var cs := fetched.value;
      PushConferences(cs);
      assert conferences == cs by { assert [] + cs == cs; }
      err := LoadSessions(src);
      initialized := err.None?;
      initializing := false;
      assert Initialize(old(State()), src) == (CacheState(err.None?, false, cs, keys, sessions), err);
    }

    /** `fetchedConferences.forEach(conf => conferencesCache.push(conf))`. */
    method PushConferences(cs: seq<Conference>)
      modifies this
      ensures conferences == old(conferences) + cs
      ensures initialized == old(initialized) && initializing == old(initializing)
      ensures keys == old(keys) && sessions == old(sessions)
    {
      var i := 0;
      while i < |cs|
        invariant 0 <= i <= |cs| && conferences == old(conferences) + cs[..i]
        invariant initialized == old(initialized) && initializing == old(initializing)
        invariant keys == old(keys) && sessions == old(sessions)
      {
        assert cs[..i + 1] == cs[..i] + [cs[i]];
        conferences := conferences + [cs[i]];
        i := i + 1;
      }
      assert cs[..|cs|] == cs;
    }

    /** The `for` loop of `initializeCache`: fetch and store each conference's sessions, stopping at the first failure. */
    method LoadSessions(src: Source) returns (err: Option<FetchError>)
      requires Valid()
      modifies this
      ensures Valid()
      ensures (keys, sessions, err) == FillSessions(SessionFetcher(src), conferences, old(keys), old(sessions))
      ensures conferences == old(conferences) && initialized == old(initialized) && initializing == old(initializing)
    {
      FillSessionsKeysMatch(SessionFetcher(src), conferences, keys, sessions);
      var j := 0;
      while j < |conferences|
        invariant 0 <= j <= |conferences|
        invariant conferences == old(conferences) && initialized == old(initialized) && initializing == old(initializing)
        invariant FillSessions(SessionFetcher(src), conferences[j..], keys, sessions)
                  == FillSessions(SessionFetcher(src), conferences, old(keys), old(sessions))
      {
        var id := conferences[j].id;
        assert conferences[j..][0] == conferences[j] && conferences[j..][1..] == conferences[j + 1..];
        var result := FetchSessions(src, id);
        if result.Failure? {
          return Some(result.error);
        }
        if id !in sessions {
          keys := keys + [id];
        }
        sessions := sessions[id := result.value];
        j := j + 1;
      }
      return None;
    }

    /** `getCachedConferences()`: initialise if needed, then a copy of the conference list. */
    method GetCachedConferences(src: Source) returns (r: Result<seq<Conference>, FetchError>)
      requires Valid()
      modifies this
      ensures Valid()
      ensures old(initialized) ==> State() == old(State()) && r == Success(conferences)
      ensures !old(initialized) ==> var (st, err) := Initialize(old(State()), src);
                                    State() == st && r == if err.Some? then Failure(err.value) else Success(st.conferences)
    {
      if !initialized {
        var err := InitializeCache(src);
        if err.Some? {
          return Failure(err.value);
        }
      }
      return Success(conferences);
    }

    /** `getCachedSessions(id)`: initialise if needed; an id with no entry throws, a stored list (even empty) is returned. */
    method GetCachedSessions(src: Source, conferenceId: string) returns (r: Result<seq<RawSession>, FetchError>)
      requires Valid()
      modifies this
      ensures Valid()
      ensures var (st, err) := if old(initialized) then (old(State()), None) else Initialize(old(State()), src);
              && State() == st
              && r == if err.Some? then Failure(err.value)
                      else if conferenceId in st.sessions then Success(st.sessions[conferenceId])
                      else Failure(UnknownConference(conferenceId))
    {
      if !initialized {
        var err := InitializeCache(src);
        if err.Some? {
          return Failure(err.value);
        }
      }
      if conferenceId !in sessions {
        return Failure(UnknownConference(conferenceId));
      }
      return Success(sessions[conferenceId]);
    }

    /** The scan of `getCachedSession`: conference by conference in key order, the first session with that raw id. */
    method FindSession(sessionId: string) returns (r: Option<RawSession>)
      requires Valid()
      ensures r == FirstMatch(keys, sessions, sessionId)
    {
      var i := 0;
      while i < |keys|
        invariant 0 <= i <= |keys|
        invariant FirstMatch(keys[i..], sessions, sessionId) == FirstMatch(keys, sessions, sessionId)
      {
        assert keys[i..][0] == keys[i] && keys[i..][1..] == keys[i + 1..];
        var found := FindById(sessions[keys[i]], sessionId);
        if found.Some? {
          return found;
        }
        i := i + 1;
      }
      return None;
    }

    /** `getCachedSession(id)`: initialise if needed, then the first session with that raw id, or none. */
    method GetCachedSession(src: Source, sessionId: string) returns (r: Result<Option<RawSession>, FetchError>)
      requires Valid()
      modifies this
      ensures Valid()
      ensures var (st, err) := if old(initialized) then (old(State()), None) else Initialize(old(State()), src);
              && State() == st
              && r == if err.Some? then Failure(err.value) else Success(FirstMatch(st.keys, st.sessions, sessionId))
    {
      if !initialized {
        var err := InitializeCache(src);
        if err.Some? {
          return Failure(err.value);
        }
      }
      var found := FindSession(sessionId);
      return Success(found);
    }
  }
}
