# libum submissions core, modelled in Dafny

libum is a Remix application for browsing the talk submissions of the
JavaZone conferences. It fetches data from the sleepingpill API. This project
models the logic behind its submissions pages and proves properties of that
model:

- **Session normaliser** (`Sessions`): `mapSessionData` turns raw upstream
  sessions into flat display records. Each field follows the rule "nested
  `data.<f>.value`, then the flat field, then a default". Ids lose one
  trailing `:1`. Speakers and tags are extracted.
- **Upstream client helpers** (`Upstream`), shared by the server cache and
  the memoising client:
  - the credential check;
  - the mapping of an HTTP status to an error (401 is an authorization
    failure);
  - the control-character sanitiser, tried when a session listing does not
    parse;
  - the choice of the list inside a response;
  - the conference record, whose year is the second `_`-field of its slug.
  `fetch`, `res.json()` and `JSON.parse` are oracles held in a `Source` value.
- **Global server cache** (`SessionsCache`): `GlobalCache` holds two flags,
  the conference list, the session map and the order of the map's keys.
  `InitializeCache` is proved against the specification function
  `Initialize`. The lookups are proved against pure scans.
- **Memoising client** (`SessionsApi`): `SessionsMemo.GetSessions` answers
  from its memo before checking credentials or fetching. It stores only
  successful results.
- **Client raw-session cache** (`RawSessionCache`): a year → id → session
  map, with merge-insert, lookup and clear.
- **`.env` fallback loader** (`EnvLoader`): it splits the file on `\n`,
  matches `^([^=]+)=(.*)$`, trims both sides, and writes a variable only when
  the variable is not already set to a non-empty value. The `ENV` defaults are
  modelled too.
- **Submissions loader** (`SubmissionsLoader`): an in-place insertion sort of
  the conferences, newest year first, then the choice of year, the conference
  lookup, and the error message shown for each failure.
- **Listing rules** (`SubmissionsTable`):
  - the multi-criteria filter;
  - the tag order, with four-digit tags last;
  - the colour classes of statuses and tags;
  - the deduplicated option lists.

The supporting modules are:

- `Text`: the JavaScript string operations the application relies on, such
  as truthiness of `||`, `includes`, `trim`, `split` and a code-point stand-in
  for `localeCompare`.
- `Seqs`: deduplication in first-occurrence order, as `Array.from(new Set(xs))`
  and object key order produce.
- `Wrappers`: `Option` and `Result`.

## Model

| member | source | states |
|---|---|---|
| Text.Or | app/utils/sessions.ts:25 | `o \|\| fallback`: a present, non-empty string wins, otherwise the fallback |
| Text.Lower | app/routes/submissions._index.tsx:172 | `toLowerCase` keeps the length and maps each character; only ASCII capitals change |
| Text.LowerIdempotent | app/routes/submissions._index.tsx:93 | lower-casing twice is lower-casing once |
| Text.IncludesIffOccurs | app/routes/submissions._index.tsx:172 | `includes` holds exactly when the needle occurs at some index |
| Text.TrimStart | app/env.server.ts:24 | the longest suffix not starting with JS whitespace; only whitespace is removed |
| Text.TrimEnd | app/env.server.ts:25 | the longest prefix not ending with JS whitespace; only whitespace is removed |
| Text.Trim | app/env.server.ts:24-25 | `trim` returns a slice with only whitespace outside it and none at either end |
| Text.IndexOf | app/env.server.ts:22 | the first position of a character, absent exactly when the character does not occur |
| Text.UpTo | app/utils/sessionsCache.server.ts:48 | the prefix before the first separator, followed by the separator or the end |
| Text.Split | app/env.server.ts:19 | `split`: separator-free parts that join back to the input; two or more parts iff the separator occurs |
| Text.SplitSecond | app/utils/sessionsCache.server.ts:48 | the second field is the text between the first and the next separator |
| Text.LexCompare | app/routes/submissions.tsx:59 | the three-way comparison standing for `localeCompare` is -1, 0 or 1 |
| Text.LexCompareAntisymmetric | app/routes/submissions.tsx:59 | swapping operands negates the comparison; it is zero only for equal strings |
| Text.LexLeTotal | app/routes/submissions.tsx:59 | any two strings are comparable |
| Text.LexLeTransitive | app/routes/submissions.tsx:59 | the order is transitive |
| Text.NatToString | app/utils/sessionsCache.server.ts:38 | the status rendered in the message is a run of decimal digits whose value is the status, with no leading zero |
| Seqs.Dedup | app/routes/submissions._index.tsx:159-161 | `Array.from(new Set(xs))` has no duplicates and the same members as `xs` |
| Seqs.DedupSnoc | app/utils/sessionsCache.server.ts:121 | assigning a key appends it to the key order only when it is new |
| Seqs.DedupFirstOccurrenceOrder | app/routes/submissions._index.tsx:159-161 | the distinct elements keep the order of their first occurrences |
| Sessions.Field | app/utils/sessions.ts:25-28 | a non-empty nested value wins, then a non-empty flat field, then the default |
| Sessions.Either | app/utils/sessions.ts:22-23 | `a \|\| b` on optional strings |
| Sessions.StripColonOne | app/utils/sessions.ts:21 | `replace(/:1$/, '')` removes one trailing `:1` and nothing else |
| Sessions.CleanId | app/utils/sessions.ts:21 | a present id loses one trailing `:1`; an absent or empty id gives `''` |
| Sessions.SpeakerNames | app/utils/sessions.ts:29-32 | no speakers unless `speakers` is an array; else one name each, `Unknown Speaker` for a missing one |
| Sessions.Tags | app/utils/sessions.ts:47-49 | the `.tag` of each `tagswithauthor` entry in order when that is an array, else empty |
| Sessions.MapSessionData | app/utils/sessions.ts:18-20 | null input gives `[]`; otherwise one display record per raw session, in order |
| Sessions.FieldPrecedence | app/utils/sessions.ts:25-46 | for each of the nine display fields: nested value, then flat field, then that field's default |
| Sessions.StatusIgnoresData | app/utils/sessions.ts:42 | `status` is the flat status or `confirmed`; `data` never changes it |
| Sessions.IdPrecedence | app/utils/sessions.ts:22-23 | `id` prefers the raw `id`, `sessionId` prefers the raw `sessionId`; both empty gives `''` |
| Sessions.CleanIdExamples | app/utils/sessions.ts:21 | `abc:1`→`abc`, `abc:1:1`→`abc:1`, `abc:10` unchanged, absent→`''` |
| Sessions.YearIrrelevant | app/utils/sessions.ts:18 | the `year` argument never affects the result |
| Upstream.StatusError | app/utils/sessionsCache.server.ts:33-39 | a non-ok status is the authorization error iff it is 401, else the generic error with status and text |
| Upstream.Sanitize | app/utils/sessionsCache.server.ts:86 | the result is no longer, holds none of the stripped controls, and equals a clean input |
| Upstream.SanitizeAppend | app/utils/sessionsCache.server.ts:86 | the sanitiser works character by character, keeping order |
| Upstream.SanitizeChar | app/utils/sessionsCache.server.ts:86 | a character is deleted exactly when it is in 0x00-0x08, 0x0B, 0x0C or 0x0E-0x1F |
| Upstream.SanitizeIdempotent | app/utils/sessionsCache.server.ts:86 | sanitising is idempotent; tab, LF and CR survive |
| Upstream.ParseWithRetry | app/utils/sessionsCache.server.ts:82-88 | the body is parsed as is, and on failure once more after sanitising |
| Upstream.RetryFutileOnCleanBody | app/utils/sessionsCache.server.ts:82-88 | on a body with no stripped control the retry fails exactly when the first parse did |
| Upstream.SelectSessions | app/utils/sessionsCache.server.ts:91-95 | a top-level array as is, else the `sessions` array, else `[]`; `null` throws |
| Upstream.SelectConferences | app/utils/sessionsCache.server.ts:42 | only an array in `conferences` is taken; anything else gives `[]`; `null` throws |
| Upstream.YearFromSlug | app/utils/sessionsCache.server.ts:48 | the year is absent iff the slug has no `_`, else the text after the first `_` up to the next |
| Upstream.ConferenceFromRaw | app/utils/sessionsCache.server.ts:43-49 | the conference keeps id, slug, name and slottimes and takes its year from the slug; no slug throws |
| Upstream.ConferencesFromRaw | app/utils/sessionsCache.server.ts:43-49 | one conference per raw entry in order, failing iff some entry has no slug |
| Upstream.FetchConferences | app/utils/sessionsCache.server.ts:17-50 | missing credentials fail first; a rejected request gives its message; a non-ok status gives its error; a success is the mapped selected list (also `getConferences`, app/api/sessions.server.ts:35-73, which keeps no cache) |
| Upstream.ConferencesFromSelectedShape | app/utils/sessionsCache.server.ts:41-49 | an ok response: an unparsable body gives the parse error, `null` throws, an array in `conferences` is mapped per entry (succeeding iff every entry has a slug, with id and year from that entry), anything else gives `[]` |
| Upstream.FetchSessions | app/utils/sessionsCache.server.ts:56-96 | missing credentials fail first; a rejected request gives its message; a non-ok status gives its error; a success is the list selected from the (retried) parse |
| Upstream.SessionsFromOkResponse | app/utils/sessionsCache.server.ts:80-95 | an ok response: a body unparsable even after sanitising gives the parse error, `null` throws the TypeError, any other value gives the list `SelectSessions` takes |
| Upstream.UnauthorizedIsAuthorizationFailed | app/utils/sessionsCache.server.ts:72-77 | a 401 always surfaces as the authorization error |
| Upstream.SanitisedBodyParses | app/utils/sessionsCache.server.ts:80-88 | a body that fails to parse yields what its sanitised text yields |
| SessionsCache.FetchedPrefix | app/utils/sessionsCache.server.ts:119-123 | the conferences before the first failing session fetch all succeed, and the next one fails |
| SessionsCache.Stored | app/utils/sessionsCache.server.ts:121 | the session map holds exactly the given ids |
| SessionsCache.FillStep | app/utils/sessionsCache.server.ts:121 | one loop step appends a new id to the key order and stores its sessions |
| SessionsCache.FillSessionsOutcome | app/utils/sessionsCache.server.ts:119-123 | the loop stores the sessions of every conference before the first failure, keys in first-occurrence order, and returns that failure |
| SessionsCache.InitializeOutcome | app/utils/sessionsCache.server.ts:110-125 | conferences stored in order; sessions of the fetched prefix stored by id; initialised iff no fetch failed; the first error returned |
| SessionsCache.InitializeConferenceFailure | app/utils/sessionsCache.server.ts:110-132 | a failed conference fetch leaves the cache cleared, not initialising, and a retry ends the same |
| SessionsCache.InitializeBusyIsNoOp | app/utils/sessionsCache.server.ts:102-104 | while initialised or initialising a call changes nothing |
| SessionsCache.ReinitializeSameOutcome | app/utils/sessionsCache.server.ts:110-112 | initialisation clears first, so any idle state ends in the same state |
| SessionsCache.InitializeWellFormed | app/utils/sessionsCache.server.ts:110-123 | the key order lists every stored conference id exactly once |
| SessionsCache.FindById | app/utils/sessionsCache.server.ts:170 | `find` returns the first session whose raw `id` matches, absent iff none does |
| SessionsCache.FirstMatch | app/utils/sessionsCache.server.ts:169-176 | absent iff no stored session has that id; otherwise a stored session with that id |
| SessionsCache.FirstMatchIsFirst | app/utils/sessionsCache.server.ts:169-176 | the match is the first in key order: what `find` returns in the first conference whose list has one |
| SessionsCache.FillSessionsKeysMatch | app/utils/sessionsCache.server.ts:119-123 | the loop keeps the key order listing each stored id exactly once |
| SessionsCache.GlobalCache.constructor | app/utils/sessionsCache.server.ts:6-11 | the cache starts empty, neither initialised nor initialising, with the key order in step with the map (`Valid`, which every method keeps) |
| SessionsCache.GlobalCache.PushConferences | app/utils/sessionsCache.server.ts:116 | the `forEach` appends the fetched conferences in order and changes nothing else |
| SessionsCache.GlobalCache.InitializeCache | app/utils/sessionsCache.server.ts:101-133 | the new state and the error are those of `Initialize` |
| SessionsCache.GlobalCache.LoadSessions | app/utils/sessionsCache.server.ts:119-123 | the `for` loop updates the key order and the session map as `FillSessions` says and touches nothing else |
| SessionsCache.GlobalCache.GetCachedConferences | app/utils/sessionsCache.server.ts:138-143 | initialises when needed, then returns the conference list or the error |
| SessionsCache.GlobalCache.GetCachedSessions | app/utils/sessionsCache.server.ts:148-158 | throws iff no entry exists for the id; a stored empty list is returned |
| SessionsCache.GlobalCache.FindSession | app/utils/sessionsCache.server.ts:169-176 | the loop over the keys returns `FirstMatch` and changes nothing |
| SessionsCache.GlobalCache.GetCachedSession | app/utils/sessionsCache.server.ts:163-177 | initialises when needed, then the first session with that raw id, or none |
| SessionsApi.HitIgnoresUpstream | app/api/sessions.server.ts:80-83 | a stored list, even an empty one, is returned without credentials or fetch, and nothing changes |
| SessionsApi.MissWithoutCredentials | app/api/sessions.server.ts:85-88 | a miss without credentials throws and caches nothing |
| SessionsApi.FailureCachesNothing | app/api/sessions.server.ts:101-107 | a failing call leaves the memo unchanged; a non-ok status is the authorization error iff it is 401 |
| SessionsApi.SecondCallHits | app/api/sessions.server.ts:126-129 | a success is stored under its id, other entries stay, and the next call is a hit |
| SessionsApi.MissReturnsSelectedShape | app/api/sessions.server.ts:120-124 | on a miss the result is the top-level array, else `sessions`, else `[]` |
| SessionsApi.SessionsMemo.constructor | app/api/sessions.server.ts:30 | the memo starts empty |
| SessionsApi.SessionsMemo.GetSessions | app/api/sessions.server.ts:78-134 | the new memo and the result are those of `GetSessionsSpec` |
| RawSessionCache.LastWithId | app/utils/rawSessionCache.client.ts:19-25 | the last session carrying a non-empty id, absent iff none does |
| RawSessionCache.StoreAllLookup | app/utils/rawSessionCache.client.ts:19-25 | after the `forEach` an id names its last session; other ids keep their entry |
| RawSessionCache.SetRawSessionsLookup | app/utils/rawSessionCache.client.ts:15-27 | the bucket is created; the last session per id wins; other years and ids are unchanged |
| RawSessionCache.SetWithoutIdsKeepsBucket | app/utils/rawSessionCache.client.ts:16-18 | a list with no ids still creates the year's bucket and stores nothing |
| RawSessionCache.RawCache.constructor | app/utils/rawSessionCache.client.ts:9 | the cache starts empty |
| RawSessionCache.RawCache.SetRawSessions | app/utils/rawSessionCache.client.ts:15-27 | the new cache is `SetRawSessionsSpec` of the old |
| RawSessionCache.RawCache.GetRawSession | app/utils/rawSessionCache.client.ts:33-41 | the stored session or none, without changing the cache |
| RawSessionCache.RawCache.ClearRawCache | app/utils/rawSessionCache.client.ts:46-49 | afterwards every lookup misses |
| EnvLoader.MatchEnvLine | app/env.server.ts:22 | a match splits at the first `=`, with a non-empty key and a value free of line terminators; otherwise no match |
| EnvLoader.Assignment | app/env.server.ts:24-26 | a line assigns only a non-empty key and a non-empty value |
| EnvLoader.AssignmentIsTrimmedMatch | app/env.server.ts:22-26 | a line assigns iff it matches and both trimmed sides are non-empty, and then it assigns the trimmed pair |
| EnvLoader.AssignmentExamples | app/env.server.ts:24-26 | `K = v` assigns `v` to `K`; `K= ` assigns nothing |
| EnvLoader.FirstAssignedIsFirst | app/env.server.ts:21-31 | `FirstAssigned` is the value of the first line assigning the key, absent iff no line does |
| EnvLoader.ApplyAllOutcome | app/env.server.ts:21-31 | a set variable keeps its value; an unset one gets the first line's value, else stays as it was |
| EnvLoader.MatchEnvLineExamples | app/env.server.ts:22 | `A=b=c` gives `A` and `b=c`; `=x`, `AB` and a value holding `\r` do not match |
| EnvLoader.EnvOf | app/env.server.ts:46-50 | `NODE_ENV` defaults to `development`, the credential to `''` |
| EnvLoader.FallbackFillsCredential | app/env.server.ts:11-31 | a missing credential takes the first `.env` line assigning it, else `ENV` holds `''` |
| EnvLoader.NoFallbackWhenLoaded | app/env.server.ts:11 | when dotenv succeeded and set the credential the file is not reread |
| EnvLoader.ProcessEnv.constructor | app/env.server.ts:8 | the environment as dotenv left it |
| EnvLoader.ProcessEnv.LoadFallback | app/env.server.ts:11-38 | the new environment is `LoadSpec` of the old |
| EnvLoader.ProcessEnv.ApplyLines | app/env.server.ts:21-31 | the loop applies each line's assignment in order |
| EnvLoader.ProcessEnv.ApplyLine | app/env.server.ts:22-29 | one line is matched, trimmed and written only into an unset variable |
| EnvLoader.ProcessEnv.ReadEnv | app/env.server.ts:46-50 | `ENV` reads the two variables with their defaults |
| SubmissionsLoader.Reason | app/routes/submissions.tsx:74 | `message \|\| 'Unknown error'` is never empty and keeps a non-empty message |
| SubmissionsLoader.SelectYear | app/routes/submissions.tsx:60 | the year parameter, else the first conference's year, else `''` |
| SubmissionsLoader.FindByYear | app/routes/submissions.tsx:63 | the first conference of that year, absent iff none has it |
| SubmissionsLoader.ConferenceFailureShown | app/routes/submissions.tsx:79-82 | a conference failure shows `Error loading conferences: ` and its reason, and nothing else |
| SubmissionsLoader.NewestYearChosen | app/routes/submissions.tsx:59-60 | without a parameter the chosen year is ordered at or after every conference's year |
| SubmissionsLoader.NoConferenceForYear | app/routes/submissions.tsx:76-78 | no match gives `No conference found for year <y>`, and no error when there are no conferences |
| SubmissionsLoader.SessionsOfSelectedConference | app/routes/submissions.tsx:63-75 | the matched conference's sessions are normalised, or the sessions error is shown; a memo hit is used as is |
| SubmissionsLoader.SortByYearDesc | app/routes/submissions.tsx:59 | the array ends sorted newest first and is a permutation of the input |
| SubmissionsLoader.InsertLast | app/routes/submissions.tsx:59 | one insertion step extends the sorted prefix by one |
| SubmissionsLoader.Loader | app/routes/submissions.tsx:46-92 | conferences sorted newest first as a permutation; the memo and page data are those of `LoadSpec` |
| SubmissionsTable.Filtered | app/routes/submissions._index.tsx:171-178 | the listed sessions are exactly the input sessions that pass every filter |
| SubmissionsTable.FilteredAppend | app/routes/submissions._index.tsx:171-178 | filtering keeps order: it distributes over concatenation |
| SubmissionsTable.NoFiltersKeepAll | app/routes/submissions._index.tsx:171-178 | all-empty filters list every session |
| SubmissionsTable.TitleFilterIgnoresCase | app/routes/submissions._index.tsx:172 | the title filter is a substring match with both sides lower-cased |
| SubmissionsTable.AuthorFilterIgnoresCase | app/routes/submissions._index.tsx:173 | the author filter ignores the filter's case |
| SubmissionsTable.TagCompare | app/routes/submissions._index.tsx:163-170 | a four-digit tag sorts after any other tag; otherwise the string order decides |
| SubmissionsTable.TagLeTotal | app/routes/submissions._index.tsx:163-170 | any two tags are comparable |
| SubmissionsTable.TagLeTransitive | app/routes/submissions._index.tsx:163-170 | the tag order is transitive |
| SubmissionsTable.InsertTag | app/routes/submissions._index.tsx:82-88 | insertion adds exactly one tag |
| SubmissionsTable.InsertTagBounded | app/routes/submissions._index.tsx:82-88 | a lower bound of the list and of the new tag bounds the result |
| SubmissionsTable.InsertTagSorted | app/routes/submissions._index.tsx:82-88 | inserting into a sorted list keeps it sorted |
| SubmissionsTable.SortTags | app/routes/submissions._index.tsx:82-88 | the sorted tags are a permutation of the input in comparator order |
| SubmissionsTable.FourDigitTagsLast | app/routes/submissions._index.tsx:163-170 | after sorting, no other tag follows a four-digit tag |
| SubmissionsTable.GetStatusClassName | app/routes/submissions._index.tsx:90-107 | green, blue or red exactly for the listed statuses in any case; gray otherwise |
| SubmissionsTable.StatusClassIgnoresCase | app/routes/submissions._index.tsx:93 | the status colour does not depend on case |
| SubmissionsTable.TagClass | app/routes/submissions._index.tsx:132-137 | red iff the lower-cased tag is denied, green iff accepted and not denied, gray otherwise |
| SubmissionsTable.TagClassIgnoresCase | app/routes/submissions._index.tsx:132 | the tag colour does not depend on case |
| SubmissionsTable.Formats | app/routes/submissions._index.tsx:159 | one format per session, in order |
| SubmissionsTable.Statuses | app/routes/submissions._index.tsx:160 | one status per session, in order |
| SubmissionsTable.AllTags | app/routes/submissions._index.tsx:161 | a tag is listed iff some session carries it |
| SubmissionsTable.FormatOptions | app/routes/submissions._index.tsx:159 | each format that occurs, exactly once |
| SubmissionsTable.StatusOptions | app/routes/submissions._index.tsx:160 | each status that occurs, exactly once |
| SubmissionsTable.TagOptions | app/routes/submissions._index.tsx:161-170 | each tag that occurs, exactly once, sorted with four-digit tags last |
| SubmissionsTable.NoDuplicatesCount | app/routes/submissions._index.tsx:161 | a duplicate-free list holds each tag at most once |
| SubmissionsTable.SortedDistinct | app/routes/submissions._index.tsx:161-170 | sorting the distinct tags leaves them distinct |

## Left out

- HTTP and JSON: `fetch`, `res.json()`, `res.text()` and `JSON.parse` are oracles in `Upstream.Source`. A JSON value is reduced to the shape the code inspects (`Payload`). The TypeError texts for `null` bodies and missing slugs stand in for the engine's wording.
- The Basic-Auth header built with `Buffer`, and all console logging, are left out. The header is opaque, and logging has no effect on state.
- The race on `cacheInitializing`: `initializeCache` is one sequential step whose pre-state may be "initialising". The interleaving of concurrent calls is concurrency and is left out.
- The copies of `getCachedConferences` and `getCachedSessions`: Dafny sequences are values, so a caller cannot alias the cache. The copy is implicit.
- Plain objects used as maps (`sessionsCache` in app/api/sessions.server.ts:30 and app/utils/sessionsCache.server.ts:7, `rawSessionsCache` in app/utils/rawSessionCache.client.ts:9) also see keys inherited from `Object.prototype`. For example `getSessions("constructor")` finds `Object.prototype.constructor` and returns it without fetching. The model's maps hold only the keys stored in them.
- SessionsCache.GlobalCache.FindSession: object key order is modelled as insertion order. JavaScript lists integer-like keys first, in numeric order; that is not modelled.
- Text.LexCompare: `localeCompare` is approximated by code-point order. Locale collation depends on ICU data.
- Text.Lower: `toLowerCase` is modelled for ASCII letters only, because full Unicode case mapping is library data.
- Strings are sequences of code points, not UTF-16 code units.
- Raw session fields are strings or absent. Numbers, objects and other non-string JSON values in those fields are not modelled.
- SubmissionsLoader.Loader: with two or more conferences, one of them without a year, the model always reports the TypeError of `undefined.localeCompare`. The engine throws only if its sort passes that conference as the comparator's `b`. Otherwise it compares against the string `undefined`, and the resulting order depends on the engine's algorithm.
- SubmissionsLoader.SortByYearDesc: the proof covers order and permutation but not stability. Stability is the only further promise of `Array.prototype.sort`.
- SubmissionsTable.SortTags: the proof covers order and permutation but not stability.
- `isFutureYear` and `formatDate` depend on the wall clock and `Intl`.
- dotenv's own parsing in `config()` is a library. Its outcome (the environment and whether it failed) is an input. So is the `.env` file's text; it is absent when the file does not exist or cannot be read.
- React rendering, `useState`, `useEffect` (including the call of `setRawSessions`) and navigation are left out.
- The debug pages, the prototype listing page, the landing page, `api.conferences.ts` and `types/talk.ts` are not part of this model.
