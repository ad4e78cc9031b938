/**
 * The memoising upstream client of app/api/sessions.server.ts: `getSessions`
 * keeps every successfully fetched session list in a module-level record
 * keyed by conference id and answers from it before checking credentials or
 * fetching; `getConferences` keeps nothing and is `Upstream.FetchConferences`.
 */
module SessionsApi {
  import opened Wrappers
  import opened Sessions
  import opened Upstream

  /**
   * One call of `getSessions(conferenceId)` against the memo `memo`: the new
   * memo and the outcome. A stored list, even an empty one (an array is
   * truthy), is a hit.
   */
  function GetSessionsSpec(memo: map<string, seq<RawSession>>, src: Source, conferenceId: string)
    : (map<string, seq<RawSession>>, Result<seq<RawSession>, FetchError>)
  {
    if conferenceId in memo then (memo, Success(memo[conferenceId]))
    else match FetchSessions(src, conferenceId)
      case Failure(e) => (memo, Failure(e))
      case Success(v) => (memo[conferenceId := v], Success(v))
  }

  /** A hit returns the stored list whatever the credentials and the upstream, and changes nothing. */
  lemma HitIgnoresUpstream(memo: map<string, seq<RawSession>>, src: Source, conferenceId: string)
    requires conferenceId in memo
    ensures GetSessionsSpec(memo, src, conferenceId) == (memo, Success(memo[conferenceId]))
    ensures GetSessionsSpec(memo, src.(auth := ""), conferenceId) == GetSessionsSpec(memo, src, conferenceId)
  {
  }

  /** A miss without credentials throws the credentials error and caches nothing. */
  lemma MissWithoutCredentials(memo: map<string, seq<RawSession>>, src: Source, conferenceId: string)
    requires conferenceId !in memo && src.auth == ""
    ensures GetSessionsSpec(memo, src, conferenceId) == (memo, Failure(CredentialsMissing))
  {
  }

  /**
   * A miss that throws (missing credentials, a status that is not ok, a body
   * that does not parse) leaves the memo as it was; a non-ok status throws
   * the authorization error exactly when it is 401.
   */
  lemma FailureCachesNothing(memo: map<string, seq<RawSession>>, src: Source, conferenceId: string)
    requires GetSessionsSpec(memo, src, conferenceId).1.Failure?
    ensures GetSessionsSpec(memo, src, conferenceId).0 == memo
    ensures conferenceId !in memo
    ensures src.auth != "" && src.http(SessionsUrl(conferenceId)).Success? && !IsOk(src.http(SessionsUrl(conferenceId)).value) ==>
              (GetSessionsSpec(memo, src, conferenceId).1 == Failure(AuthorizationFailed)
               <==> src.http(SessionsUrl(conferenceId)).value.status == 401)
  {
  }

  /**
   * A call that succeeds leaves its result stored under `conferenceId` and
   * every other entry as it was, so a second call, with any upstream at all,
   * is a hit returning the same list.
   */
  lemma SecondCallHits(memo: map<string, seq<RawSession>>, src1: Source, src2: Source, conferenceId: string)
    requires GetSessionsSpec(memo, src1, conferenceId).1.Success?
    ensures var (memo', r) := GetSessionsSpec(memo, src1, conferenceId);
            && conferenceId in memo' && memo'[conferenceId] == r.value
            && (forall k :: k != conferenceId ==> (k in memo' <==> k in memo))
            && (forall k :: k != conferenceId && k in memo ==> memo'[k] == memo[k])
            && GetSessionsSpec(memo', src2, conferenceId) == (memo', r)
  {
  }

  /** On a miss the list is the one selected from the response: the top-level array, else its `sessions` array, else empty. */
  lemma MissReturnsSelectedShape(memo: map<string, seq<RawSession>>, src: Source, conferenceId: string, res: HttpResponse, p: Payload<RawSession>)
    requires conferenceId !in memo && src.auth != ""
    requires src.http(SessionsUrl(conferenceId)) == Success(res) && IsOk(res)
    requires ParseWithRetry(src.parseSessions, res.body) == Success(p)
    ensures p.PArray? ==> GetSessionsSpec(memo, src, conferenceId).1 == Success(p.items)
    ensures p.PObject? && p.field.Some? ==> GetSessionsSpec(memo, src, conferenceId).1 == Success(p.field.value)
    ensures p.PScalar? || (p.PObject? && p.field.None?) ==> GetSessionsSpec(memo, src, conferenceId).1 == Success([])
  {
  }

  /** The module-level `sessionsCache` record of the client. */
  class SessionsMemo {
    var memo: map<string, seq<RawSession>>

    /** The memo at module load is empty. */
    constructor ()
      ensures memo == map[]
    {
      memo := map[];
    }

    /** `getSessions(conferenceId)`. */
    method GetSessions(src: Source, conferenceId: string) returns (r: Result<seq<RawSession>, FetchError>)
      modifies this
      ensures (memo, r) == GetSessionsSpec(old(memo), src, conferenceId)
    {
      if conferenceId in memo {
        return Success(memo[conferenceId]);
      }
      var fetched := FetchSessions(src, conferenceId);
      if fetched.Failure? {
        return Failure(fetched.error);
      }
      memo := memo[conferenceId := fetched.value];
      return Success(fetched.value);
    }
  }
}
