/**
 * The upstream client as both app/utils/sessionsCache.server.ts and
 * app/api/sessions.server.ts implement it: the credential check, the mapping
 * of HTTP statuses to errors, the control-character sanitiser used when a
 * session listing does not parse, the selection of the list inside a
 * response, and the conference record with its year taken from the slug.
 * `fetch`, `res.json()` and `JSON.parse` are oracles held in a `Source`.
 */
module Upstream {
  import opened Wrappers
  import opened Text
  import opened Sessions

  /** A conference as the application keeps it; `year` is absent when the slug has no `_`. */
  datatype Conference = Conference(id: string, slug: string, name: string, slottimes: Option<string>, year: Option<string>)

  /** A conference as the upstream API sends it; `slug` may be missing. */
  datatype RawConference = RawConference(id: string, slug: Option<string>, name: string, slottimes: Option<string>)

  datatype HttpResponse = HttpResponse(status: nat, statusText: string, body: string)

  /** `res.ok`. */
  predicate IsOk(res: HttpResponse) {
    200 <= res.status <= 299
  }

  /**
   * A parsed JSON body as far as the shape selection inspects it: `null`, an
   * array, an object together with its field of interest (`sessions` or
   * `conferences`) when that field is an array, or any other value.
   */
  datatype Payload<T> = PNull | PArray(items: seq<T>) | PObject(field: Option<seq<T>>) | PScalar

  /** What the upstream client and the caches throw. */
  datatype FetchError =
    | CredentialsMissing
    | AuthorizationFailed
    | RequestFailed(what: string, status: nat, statusText: string)
    | NetworkFailure(message: string)
    | MalformedBody(message: string)
    | UnknownConference(conferenceId: string)

  /** The `message` of the thrown `Error`. */
  function Message(e: FetchError): string {
    match e
    case CredentialsMissing => "Authorization credentials missing. Check your .env file."
    case AuthorizationFailed => "Authorization failed. Check your credentials in .env file."
    case RequestFailed(what, status, text) => "Failed to fetch " + what + ": " + NatToString(status) + " " + text
    case NetworkFailure(m) => m
    case MalformedBody(m) => m
    case UnknownConference(id) => "No cached sessions found for conference ID: " + id
  }

  /**
   * Everything the fetch helpers depend on besides their argument: the
   * credential `ENV.MORESLEEP_BASIC_AUTH`, `fetch` by URL (a failure carries
   * the rejection message), `res.json()` of the conference listing and
   * `JSON.parse` of a session listing (a failure carries the SyntaxError message).
   */
  datatype Source = Source(
    auth: string,
    http: string -> Result<HttpResponse, string>,
    parseConferences: string -> Result<Payload<RawConference>, string>,
    parseSessions: string -> Result<Payload<RawSession>, string>)

  const ConferencesUrl: string := "https://sleepingpill.javazone.no/data/conference"

  function SessionsUrl(conferenceId: string): string {
    ConferencesUrl + "/" + conferenceId + "/session"
  }

  /** The error for a response that is not ok: 401 is an authorization failure, anything else a generic one. */
  function StatusError(what: string, res: HttpResponse): (e: FetchError)
    requires !IsOk(res)
    ensures e == AuthorizationFailed <==> res.status == 401
    ensures res.status != 401 ==> e == RequestFailed(what, res.status, res.statusText)
  {
    if res.status == 401 then AuthorizationFailed else RequestFailed(what, res.status, res.statusText)
  }

  // ---------------------------------------------------------------------------
  // Sanitising a body that does not parse

  /** The characters the sanitiser deletes: U+0000-U+0008, U+000B, U+000C and U+000E-U+001F. */
  predicate IsStrippedControl(c: char) {
    c <= '\U{0008}' || c == '\U{000B}' || c == '\U{000C}' || ('\U{000E}' <= c <= '\U{001F}')
  }

  /** `raw.replace(/[\u0000-\u0008\u000B\u000C\u000E-\u001F]/g, '')`. */
  function Sanitize(s: string): (r: string)
    ensures |r| <= |s|
    ensures forall i :: 0 <= i < |r| ==> !IsStrippedControl(r[i])
    ensures forall i :: 0 <= i < |r| ==> r[i] in s
    ensures (forall i :: 0 <= i < |s| ==> !IsStrippedControl(s[i])) ==> r == s
  {
    if s == [] then []
    else (if IsStrippedControl(s[0]) then [] else [s[0]]) + Sanitize(s[1..])
  }

  /** The sanitiser works character by character: on a concatenation it sanitises each part. */
  lemma {:induction false} SanitizeAppend(a: string, b: string)
    ensures Sanitize(a + b) == Sanitize(a) + Sanitize(b)
  {
    if a != [] {
      assert (a + b)[0] == a[0] && (a + b)[1..] == a[1..] + b;
      SanitizeAppend(a[1..], b);
    } else {
      assert a + b == b;
    }
  }

  /** One character is deleted exactly when it is one of the stripped controls. */
  lemma SanitizeChar(c: char)
    ensures Sanitize([c]) == if IsStrippedControl(c) then [] else [c]
  {
    assert [c][1..] == [];
  }

  /** Sanitising twice is sanitising once, and tab, line feed and carriage return survive. */
  lemma SanitizeIdempotent(s: string)
    ensures Sanitize(Sanitize(s)) == Sanitize(s)
    ensures Sanitize("\t\n\r") == "\t\n\r"
  {
  }

  /** `JSON.parse(raw)`, retried once on the sanitised text when it throws. */
  function ParseWithRetry<T>(parse: string -> Result<Payload<T>, string>, raw: string): (r: Result<Payload<T>, string>)
    ensures parse(raw).Success? ==> r == parse(raw)
    ensures parse(raw).Failure? ==> r == parse(Sanitize(raw))
  {
    match parse(raw)
    case Success(p) => Success(p)
    case Failure(_) => parse(Sanitize(raw))
  }

  /** When the body holds none of the stripped characters the retry parses the same text, so it fails again. */
  lemma RetryFutileOnCleanBody<T>(parse: string -> Result<Payload<T>, string>, raw: string)
    requires forall i :: 0 <= i < |raw| ==> !IsStrippedControl(raw[i])
    ensures ParseWithRetry(parse, raw).Failure? <==> parse(raw).Failure?
  {
  }

  // ---------------------------------------------------------------------------
  // Choosing the list inside a response

  /**
   * `Array.isArray(data) ? data : Array.isArray(data.sessions) ? data.sessions : []`;
   * reading `.sessions` of `null` throws a TypeError.
   */
  function SelectSessions(p: Payload<RawSession>): (r: Result<seq<RawSession>, FetchError>)
    ensures r.Failure? <==> p.PNull?
    ensures p.PArray? ==> r == Success(p.items)
    ensures p.PObject? && p.field.Some? ==> r == Success(p.field.value)
    ensures (p.PScalar? || (p.PObject? && p.field.None?)) ==> r == Success([])
  {
    match p
    case PNull => Failure(MalformedBody("Cannot read properties of null (reading 'sessions')"))
    case PArray(items) => Success(items)
    case PObject(field) => Success(field.GetOr([]))
    case PScalar => Success([])
  }

  /** `Array.isArray(json.conferences) ? json.conferences : []`; a top-level array has no `conferences`. */
  function SelectConferences(p: Payload<RawConference>): (r: Result<seq<RawConference>, FetchError>)
    ensures r.Failure? <==> p.PNull?
    ensures p.PObject? && p.field.Some? ==> r == Success(p.field.value)
    ensures (p.PArray? || p.PScalar? || (p.PObject? && p.field.None?)) ==> r == Success([])
  {
    match p
    case PNull => Failure(MalformedBody("Cannot read properties of null (reading 'conferences')"))
    case PObject(field) => Success(field.GetOr([]))
    case _ => Success([])
  }

  // ---------------------------------------------------------------------------
  // Conference records

  /** `slug.split('_')[1]`: the text between the first `_` and the next `_` or the end; absent without a `_`. */
  function YearFromSlug(slug: string): (r: Option<string>)
    ensures r.None? <==> '_' !in slug
    ensures r.Some? ==> (IndexOf(slug, '_').Some?
                         && r.value == UpTo(slug[IndexOf(slug, '_').value + 1..], '_'))
    ensures r.Some? ==> '_' !in r.value
  {
    var parts := Split(slug, '_');
    if |parts| >= 2 then
      SplitSecond(slug, '_', IndexOf(slug, '_').value);
      Some(parts[1])
    else None
  }

  /** The conference record built from one raw entry; a missing slug makes `c.slug.split` throw. */
  function ConferenceFromRaw(c: RawConference): (r: Result<Conference, FetchError>)
    ensures r.Failure? <==> c.slug.None?
    ensures r.Success? ==> r.value == Conference(c.id, c.slug.value, c.name, c.slottimes, YearFromSlug(c.slug.value))
  {
    match c.slug
    case None => Failure(MalformedBody("Cannot read properties of undefined (reading 'split')"))
    case Some(slug) => Success(Conference(c.id, slug, c.name, c.slottimes, YearFromSlug(slug)))
  }

  /** `raw.map(...)`: one conference per raw entry, in order, or the first entry's error. */
  function ConferencesFromRaw(raws: seq<RawConference>): (r: Result<seq<Conference>, FetchError>)
    ensures r.Success? <==> forall i :: 0 <= i < |raws| ==> raws[i].slug.Some?
    ensures r.Success? ==> |r.value| == |raws|
    ensures r.Success? ==> forall i :: 0 <= i < |raws| ==> Success(r.value[i]) == ConferenceFromRaw(raws[i])
  {
    if raws == [] then Success([])
    else match ConferenceFromRaw(raws[0])
      case Failure(e) => Failure(e)
      case Success(c) =>
        match ConferencesFromRaw(raws[1..])
        case Failure(e) => Failure(e)
        case Success(cs) => Success([c] + cs)
  }

  // ---------------------------------------------------------------------------
  // The two fetch helpers

  /** `getConferences()` / `fetchConferencesFromApi()`: the conference listing, never cached. */
  function FetchConferences(src: Source): (r: Result<seq<Conference>, FetchError>)
    ensures src.auth == "" ==> r == Failure(CredentialsMissing)
    ensures src.auth != "" && src.http(ConferencesUrl).Failure? ==> r == Failure(NetworkFailure(src.http(ConferencesUrl).error))
    ensures src.auth != "" && src.http(ConferencesUrl).Success? && !IsOk(src.http(ConferencesUrl).value) ==>
              r == Failure(StatusError("conferences", src.http(ConferencesUrl).value))
    ensures r.Success? ==>
              src.auth != "" && src.http(ConferencesUrl).Success? && IsOk(src.http(ConferencesUrl).value)
              && src.parseConferences(src.http(ConferencesUrl).value.body).Success?
              && SelectConferences(src.parseConferences(src.http(ConferencesUrl).value.body).value).Success?
              && Success(r.value) == ConferencesFromRaw(SelectConferences(src.parseConferences(src.http(ConferencesUrl).value.body).value).value)
  {
    if src.auth == "" then Failure(CredentialsMissing)
    else match src.http(ConferencesUrl)
      case Failure(m) => Failure(NetworkFailure(m))
      case Success(res) =>
        if !IsOk(res) then Failure(StatusError("conferences", res))
        else match src.parseConferences(res.body)
          case Failure(m) => Failure(MalformedBody(m))
          case Success(json) =>
            match SelectConferences(json)
            case Failure(e) => Failure(e)
            case Success(raws) => ConferencesFromRaw(raws)
  }

  /** `getSessions(id)` without its memo / `fetchSessionsFromApi(id)`: the raw sessions of one conference. */
  function FetchSessions(src: Source, conferenceId: string): (r: Result<seq<RawSession>, FetchError>)
    ensures src.auth == "" ==> r == Failure(CredentialsMissing)
    ensures src.auth != "" && src.http(SessionsUrl(conferenceId)).Failure? ==>
              r == Failure(NetworkFailure(src.http(SessionsUrl(conferenceId)).error))
    ensures src.auth != "" && src.http(SessionsUrl(conferenceId)).Success? && !IsOk(src.http(SessionsUrl(conferenceId)).value) ==>
              r == Failure(StatusError("sessions for " + conferenceId, src.http(SessionsUrl(conferenceId)).value))
    ensures r.Success? ==>
              src.auth != "" && src.http(SessionsUrl(conferenceId)).Success? && IsOk(src.http(SessionsUrl(conferenceId)).value)
              && ParseWithRetry(src.parseSessions, src.http(SessionsUrl(conferenceId)).value.body).Success?
              && Success(r.value) == SelectSessions(ParseWithRetry(src.parseSessions, src.http(SessionsUrl(conferenceId)).value.body).value)
  {
    if src.auth == "" then Failure(CredentialsMissing)
    else match src.http(SessionsUrl(conferenceId))
      case Failure(m) => Failure(NetworkFailure(m))
      case Success(res) =>
        if !IsOk(res) then Failure(StatusError("sessions for " + conferenceId, res))
        else match ParseWithRetry(src.parseSessions, res.body)
          case Failure(m) => Failure(MalformedBody(m))
          case Success(data) => SelectSessions(data)
  }

  /**
   * An authorised, ok conference response: a body that does not parse gives
   * the parse error; `null` throws; an array in `conferences` is mapped
   * entry by entry (and succeeds exactly when every entry has a slug, each
   * conference taking its id and its year from its own entry); any other
   * shape gives no conferences.
   */
  lemma ConferencesFromSelectedShape(src: Source, res: HttpResponse)
    requires src.auth != "" && src.http(ConferencesUrl) == Success(res) && IsOk(res)
    ensures src.parseConferences(res.body).Failure? ==>
              FetchConferences(src) == Failure(MalformedBody(src.parseConferences(res.body).error))
    ensures src.parseConferences(res.body) == Success(PNull) ==>
              FetchConferences(src) == Failure(MalformedBody("Cannot read properties of null (reading 'conferences')"))
    ensures src.parseConferences(res.body).Success? && src.parseConferences(res.body).value.PObject?
            && src.parseConferences(res.body).value.field.Some? ==>
              var raws := src.parseConferences(res.body).value.field.value;
              && (FetchConferences(src).Success? <==> forall i :: 0 <= i < |raws| ==> raws[i].slug.Some?)
              && (FetchConferences(src).Success? ==>
                    && |FetchConferences(src).value| == |raws|
                    && forall i :: 0 <= i < |raws| ==>
                         && FetchConferences(src).value[i].id == raws[i].id
                         && FetchConferences(src).value[i].year == YearFromSlug(raws[i].slug.value))
    ensures src.parseConferences(res.body).Success?
            && (|| src.parseConferences(res.body).value.PArray?
                || src.parseConferences(res.body).value.PScalar?
                || src.parseConferences(res.body).value == PObject(None)) ==>
              FetchConferences(src) == Success([])
  {
    if src.parseConferences(res.body).Success? && src.parseConferences(res.body).value.PObject?
       && src.parseConferences(res.body).value.field.Some? {
      var raws := src.parseConferences(res.body).value.field.value;
      assert FetchConferences(src) == ConferencesFromRaw(raws);
    }
  }

  /**
   * An authorised, ok session response: a body that does not parse even
   * after sanitising gives the parse error; `null` throws the TypeError;
   * any other parsed value gives the list `SelectSessions` takes from it.
   */
  lemma SessionsFromOkResponse(src: Source, conferenceId: string, res: HttpResponse)
    requires src.auth != "" && src.http(SessionsUrl(conferenceId)) == Success(res) && IsOk(res)
    ensures ParseWithRetry(src.parseSessions, res.body).Failure? ==>
              FetchSessions(src, conferenceId) == Failure(MalformedBody(ParseWithRetry(src.parseSessions, res.body).error))
    ensures ParseWithRetry(src.parseSessions, res.body).Success? ==>
              FetchSessions(src, conferenceId) == SelectSessions(ParseWithRetry(src.parseSessions, res.body).value)
    ensures ParseWithRetry(src.parseSessions, res.body) == Success(PNull) ==>
              FetchSessions(src, conferenceId) == Failure(MalformedBody("Cannot read properties of null (reading 'sessions')"))
  {
  }

  /** A 401 from the session endpoint always surfaces as the authorization error, whatever the body. */
  lemma UnauthorizedIsAuthorizationFailed(src: Source, conferenceId: string)
    requires src.auth != "" && src.http(SessionsUrl(conferenceId)).Success?
    requires src.http(SessionsUrl(conferenceId)).value.status == 401
    ensures FetchSessions(src, conferenceId) == Failure(AuthorizationFailed)
    ensures src.http(ConferencesUrl) == src.http(SessionsUrl(conferenceId)) ==> FetchConferences(src) == Failure(AuthorizationFailed)
  {
  }

  /** A body with a stray control character that parses once sanitised yields what the clean text yields. */
  lemma SanitisedBodyParses(src: Source, conferenceId: string, res: HttpResponse)
    requires src.auth != "" && src.http(SessionsUrl(conferenceId)) == Success(res) && IsOk(res)
    requires src.parseSessions(res.body).Failure?
    ensures FetchSessions(src, conferenceId) ==
              match src.parseSessions(Sanitize(res.body))
              case Failure(m) => Failure(MalformedBody(m))
              case Success(data) => SelectSessions(data)
  {
  }
}
