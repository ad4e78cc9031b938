/**
 * The session normaliser of app/utils/sessions.ts: `mapSessionData` turns
 * the semi-structured sessions of the upstream API into flat display records.
 */
module Sessions {
  import opened Wrappers
  import opened Text

  datatype RawSpeaker = RawSpeaker(name: Option<string>)

  datatype TagWithAuthor = TagWithAuthor(author: string, tag: string)

  /**
   * The nested `data` record of a raw session: `values[f]` is the string
   * `data.<f>.value` (absent when `data.<f>` or its `value` is missing), and
   * `tagsWithAuthor` is `data.tagswithauthor.value` when that is an array.
   */
  datatype SessionData = SessionData(values: map<string, string>, tagsWithAuthor: Option<seq<TagWithAuthor>>)

  /**
   * A session as the upstream API sends it: its flat string fields by name
   * (`id`, `sessionId`, `title`, `status`, ...), `speakers` when that is an
   * array, and the optional nested `data` record.
   */
  datatype RawSession = RawSession(fields: map<string, string>, speakers: Option<seq<RawSpeaker>>, data: Option<SessionData>)

  datatype Speaker = Speaker(name: string)

  /** The display record built for one raw session. */
  datatype Session = Session(
    id: string, sessionId: string, title: string, abstractText: string, format: string,
    length: string, language: string, speakers: seq<Speaker>, status: string,
    room: string, startTime: string, endTime: string, video: string, tags: seq<string>)

  /** The raw `session.<f>`. */
  function Flat(s: RawSession, f: string): Option<string> {
    Get(s.fields, f)
  }

  /** The raw `session.data?.<f>?.value`. */
  function Nested(s: RawSession, f: string): Option<string> {
    if s.data.Some? then Get(s.data.value.values, f) else None
  }

  /** `session.data?.<f>?.value || session.<f> || default`. */
  function Field(s: RawSession, f: string, default: string): (r: string)
    ensures Truthy(Nested(s, f)) ==> r == Nested(s, f).value
    ensures !Truthy(Nested(s, f)) && Truthy(Flat(s, f)) ==> r == Flat(s, f).value
    ensures !Truthy(Nested(s, f)) && !Truthy(Flat(s, f)) ==> r == default
  {
    Or(Nested(s, f), Or(Flat(s, f), default))
  }

  /** `a || b` for two optional strings. */
  function Either(a: Option<string>, b: Option<string>): (r: Option<string>)
    ensures Truthy(a) ==> r == a
    ensures !Truthy(a) ==> r == b
  {
    if Truthy(a) then a else b
  }

  predicate EndsWithColonOne(s: string) {
    |s| >= 2 && s[|s| - 2..] == ":1"
  }

  /** `s.replace(/:1$/, '')`: one trailing `:1` removed, nothing else touched. */
  function StripColonOne(s: string): (r: string)
    ensures EndsWithColonOne(s) ==> r + ":1" == s
    ensures !EndsWithColonOne(s) ==> r == s
  {
    if EndsWithColonOne(s) then s[..|s| - 2] else s
  }

  /** `cleanId(o) || ''`: a present id loses one trailing `:1`; an absent or empty id gives `''`. */
  function CleanId(o: Option<string>): (r: string)
    ensures !Truthy(o) ==> r == ""
    ensures Truthy(o) && EndsWithColonOne(o.value) ==> r + ":1" == o.value
    ensures Truthy(o) && !EndsWithColonOne(o.value) ==> r == o.value
  {
    if Truthy(o) then StripColonOne(o.value) else ""
  }

  /** The speaker list: empty unless the raw `speakers` is an array. */
  function SpeakerNames(speakers: Option<seq<RawSpeaker>>): (r: seq<Speaker>)
    ensures speakers.None? ==> r == []
    ensures speakers.Some? ==> |r| == |speakers.value|
    ensures speakers.Some? ==> forall i :: 0 <= i < |r| ==>
              r[i].name == (if Truthy(speakers.value[i].name) then speakers.value[i].name.value else "Unknown Speaker")
  {
    match speakers
    case None => []
    case Some(sp) => seq(|sp|, i requires 0 <= i < |sp| => Speaker(Or(sp[i].name, "Unknown Speaker")))
  }

  /** The tag list: the `.tag` of each `data.tagswithauthor.value` entry when that is an array. */
  function Tags(data: Option<SessionData>): (r: seq<string>)
    ensures (data.None? || data.value.tagsWithAuthor.None?) ==> r == []
    ensures data.Some? && data.value.tagsWithAuthor.Some? ==>
              |r| == |data.value.tagsWithAuthor.value|
              && forall i :: 0 <= i < |r| ==> r[i] == data.value.tagsWithAuthor.value[i].tag
  {
    if data.Some? && data.value.tagsWithAuthor.Some? then
      var entries := data.value.tagsWithAuthor.value;
      seq(|entries|, i requires 0 <= i < |entries| => entries[i].tag)
    else []
  }

  /** The display record of one raw session (the callback of `sessionsData.map`). */
  function Normalize(s: RawSession): Session {
    Session(
      id := CleanId(Either(Flat(s, "id"), Flat(s, "sessionId"))),
      sessionId := CleanId(Either(Flat(s, "sessionId"), Flat(s, "id"))),
      title := Field(s, "title", "Untitled Session"),
      abstractText := Field(s, "abstract", ""),
      format := Field(s, "format", "presentation"),
      length := Field(s, "length", "45"),
      language := Field(s, "language", "en"),
      speakers := SpeakerNames(s.speakers),
      status := Or(Flat(s, "status"), "confirmed"),
      room := Field(s, "room", ""),
      startTime := Field(s, "startTime", ""),
      endTime := Field(s, "endTime", ""),
      video := Field(s, "video", ""),
      tags := Tags(s.data))
  }

  /** `mapSessionData(sessionsData, year)`; `None` stands for a null or undefined argument. */
  function MapSessionData(sessionsData: Option<seq<RawSession>>, year: string): (r: seq<Session>)
    ensures sessionsData.None? ==> r == []
    ensures sessionsData.Some? ==> |r| == |sessionsData.value|
    ensures sessionsData.Some? ==> forall i :: 0 <= i < |r| ==> r[i] == Normalize(sessionsData.value[i])
  {
    if sessionsData.None? || |sessionsData.value| == 0 then []
    else
      var raw := sessionsData.value;
      seq(|raw|, i requires 0 <= i < |raw| => Normalize(raw[i]))
  }

  // ---------------------------------------------------------------------------
  // What the normaliser promises

  /** The display fields filled by the `data`-then-flat-then-default rule. */
  const DisplayFields: seq<string> :=
    ["title", "abstract", "format", "length", "language", "room", "startTime", "endTime", "video"]

  /** The default of each display field. */
  function DefaultOf(f: string): string {
    match f
    case "title" => "Untitled Session"
    case "format" => "presentation"
    case "length" => "45"
    case "language" => "en"
    case _ => ""
  }

  /** A display field of a normalised session, by name. */
  function FieldOf(r: Session, f: string): string {
    match f
    case "title" => r.title
    case "abstract" => r.abstractText
    case "format" => r.format
    case "length" => r.length
    case "language" => r.language
    case "room" => r.room
    case "startTime" => r.startTime
    case "endTime" => r.endTime
    case "video" => r.video
    case _ => ""
  }

  /** For every display field: a non-empty nested value wins, then a non-empty flat field, then the default. */
  lemma FieldPrecedence(s: RawSession, f: string)
    requires f in DisplayFields
    ensures Truthy(Nested(s, f)) ==> FieldOf(Normalize(s), f) == Nested(s, f).value
    ensures !Truthy(Nested(s, f)) && Truthy(Flat(s, f)) ==> FieldOf(Normalize(s), f) == Flat(s, f).value
    ensures !Truthy(Nested(s, f)) && !Truthy(Flat(s, f)) ==> FieldOf(Normalize(s), f) == DefaultOf(f)
  {
  }

  /** `status` comes from the flat field alone, `confirmed` by default; `data` never affects it. */
  lemma StatusIgnoresData(s: RawSession, d: Option<SessionData>)
    ensures Normalize(s.(data := d)).status == Normalize(s).status
    ensures Truthy(Flat(s, "status")) ==> Normalize(s).status == Flat(s, "status").value
    ensures !Truthy(Flat(s, "status")) ==> Normalize(s).status == "confirmed"
  {
    assert Flat(s.(data := d), "status") == Flat(s, "status");
  }

  /** `id` prefers the raw `id`, `sessionId` prefers the raw `sessionId`; both lose one trailing `:1`. */
  lemma IdPrecedence(s: RawSession)
    ensures Truthy(Flat(s, "id")) ==> Normalize(s).id == CleanId(Flat(s, "id"))
    ensures !Truthy(Flat(s, "id")) ==> Normalize(s).id == CleanId(Flat(s, "sessionId"))
    ensures Truthy(Flat(s, "sessionId")) ==> Normalize(s).sessionId == CleanId(Flat(s, "sessionId"))
    ensures !Truthy(Flat(s, "sessionId")) ==> Normalize(s).sessionId == CleanId(Flat(s, "id"))
    ensures !Truthy(Flat(s, "id")) && !Truthy(Flat(s, "sessionId")) ==> Normalize(s).id == "" == Normalize(s).sessionId
  {
  }

  /** Only the `:1` at the very end goes, and only once. */
  lemma CleanIdExamples()
    ensures CleanId(Some("abc:1")) == "abc"
    ensures CleanId(Some("abc:1:1")) == "abc:1"
    ensures CleanId(Some("abc:10")) == "abc:10"
    ensures CleanId(None) == ""
  {
    assert EndsWithColonOne("abc:1");
    assert "abc:1"[..3] == "abc";
    assert EndsWithColonOne("abc:1:1");
    assert "abc:1:1"[..5] == "abc:1";
    assert "abc:10"[4..] == "10";
  }

  /** The `year` argument never affects the result. */
  lemma YearIrrelevant(sessionsData: Option<seq<RawSession>>, y1: string, y2: string)
    ensures MapSessionData(sessionsData, y1) == MapSessionData(sessionsData, y2)
  {
  }
}
