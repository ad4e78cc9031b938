/**
 * The `loader` of app/routes/submissions.tsx: fetch the conferences, sort
 * them newest year first, choose the year (the `year` query parameter, else
 * the newest conference's), find the conference of that year, and load and
 * normalise its sessions through the memoising client, turning every
 * failure into the message the page shows.
 */
module SubmissionsLoader {
  import opened Wrappers
  import opened Text
  import opened Sessions
  import opened Upstream
  import opened SessionsApi

  /** What the loader returns to the page (`isFutureYear` is not modelled). */
  datatype LoaderData = LoaderData(
    rawSessions: seq<RawSession>,
    sessions: seq<Session>,
    selectedYear: string,
    availableConferences: seq<Conference>,
    error: Option<string>)

  /** The sort key of a conference: its year. */
  function YearKey(c: Conference): string {
    c.year.GetOr("")
  }

  /** Newest first: `(a, b) => b.year.localeCompare(a.year)` never puts a later year after an earlier one. */
  predicate SortedByYearDesc(cs: seq<Conference>) {
    forall p, q :: 0 <= p < q < |cs| ==> LexLe(YearKey(cs[q]), YearKey(cs[p]))
  }

  /**
   * The comparator reads `b.year.localeCompare`, which throws a TypeError
   * when a compared conference has no year; a list of one conference is
   * never compared.
   */
  predicate SortThrows(cs: seq<Conference>) {
    |cs| >= 2 && exists i :: 0 <= i < |cs| && cs[i].year.None?
  }

  const SortTypeError: string := "Cannot read properties of undefined (reading 'localeCompare')"

  /** `error.message || 'Unknown error'`. */
  function Reason(message: string): (r: string)
    ensures r != ""
    ensures message != "" ==> r == message
  {
    Or(Some(message), "Unknown error")
  }

  /** `yearParam || availableConferences[0]?.year || ''`. */
  function SelectYear(yearParam: Option<string>, conferences: seq<Conference>): (r: string)
    ensures Truthy(yearParam) ==> r == yearParam.value
    ensures !Truthy(yearParam) && |conferences| > 0 && Truthy(conferences[0].year) ==> r == conferences[0].year.value
    ensures !Truthy(yearParam) && (|conferences| == 0 || !Truthy(conferences[0].year)) ==> r == ""
  {
    Or(yearParam, Or(if |conferences| > 0 then conferences[0].year else None, ""))
  }

  /** `availableConferences.find(c => c.year === selectedYear)`. */
  function FindByYear(conferences: seq<Conference>, year: string): (r: Option<Conference>)
    ensures r.None? <==> forall i :: 0 <= i < |conferences| ==> conferences[i].year != Some(year)
    ensures r.Some? ==> exists i :: 0 <= i < |conferences| && conferences[i] == r.value && r.value.year == Some(year)
                          && forall j :: 0 <= j < i ==> conferences[j].year != Some(year)
  {
    if conferences == [] then None
    else if conferences[0].year == Some(year) then Some(conferences[0])
    else
      var r := FindByYear(conferences[1..], year);
      assert forall i :: 0 <= i < |conferences[1..]| ==> conferences[1..][i] == conferences[i + 1];
      r
  }

  /** The page data when fetching or sorting the conferences threw: nothing but the error. */
  function ConferenceError(message: string): LoaderData {
    LoaderData([], [], "", [], Some("Error loading conferences: " + Reason(message)))
  }

  /** The steps after the sort, given the sorted list `available`: the memo afterwards and the page data. */
  function AfterSort(memo: map<string, seq<RawSession>>, src: Source, yearParam: Option<string>, available: seq<Conference>)
    : (map<string, seq<RawSession>>, LoaderData)
  {
    var year := SelectYear(yearParam, available);
    match FindByYear(available, year)
    case None =>
      (memo, LoaderData([], [], year, available,
                        if |available| > 0 then Some("No conference found for year " + year) else None))
    case Some(sel) =>
      var (memo', r) := GetSessionsSpec(memo, src, sel.id);
      match r
      case Failure(e) => (memo', LoaderData([], [], year, available, Some("Error loading sessions: " + Reason(Message(e)))))
      case Success(raw) => (memo', LoaderData(raw, MapSessionData(Some(raw), year), year, available, None))
  }

  /** One run of the loader against the memo `memo`, with `sorted` the list the sort produced. */
  function LoadSpec(memo: map<string, seq<RawSession>>, src: Source, yearParam: Option<string>, sorted: seq<Conference>)
    : (map<string, seq<RawSession>>, LoaderData)
  {
    match FetchConferences(src)
    case Failure(e) => (memo, ConferenceError(Message(e)))
    case Success(cs) => if SortThrows(cs) then (memo, ConferenceError(SortTypeError)) else AfterSort(memo, src, yearParam, sorted)
  }

  // ---------------------------------------------------------------------------
  // What the loader promises

  /** A failed conference fetch shows its message behind the conferences prefix, with no year, no conferences and no sessions. */
  lemma ConferenceFailureShown(memo: map<string, seq<RawSession>>, src: Source, yearParam: Option<string>, sorted: seq<Conference>)
    requires FetchConferences(src).Failure?
    ensures var (memo', data) := LoadSpec(memo, src, yearParam, sorted);
            && memo' == memo
            && data.error == Some("Error loading conferences: " + Reason(Message(FetchConferences(src).error)))
            && data.sessions == [] && data.availableConferences == [] && data.selectedYear == ""
    ensures src.auth == "" ==> LoadSpec(memo, src, yearParam, sorted).1.error
                               == Some("Error loading conferences: " + Message(CredentialsMissing))
  {
  }

  /** The newest conference's year is chosen when no year is asked for: every conference's year is ordered before or at it. */
  lemma NewestYearChosen(yearParam: Option<string>, available: seq<Conference>)
    requires SortedByYearDesc(available) && |available| > 0
    requires !Truthy(yearParam)
    ensures forall i :: 0 <= i < |available| ==> LexLe(YearKey(available[i]), SelectYear(yearParam, available))
  {
    forall i | 0 <= i < |available|
      ensures LexLe(YearKey(available[i]), SelectYear(yearParam, available))
    {
      if i > 0 {
        assert LexLe(YearKey(available[i]), YearKey(available[0]));
      } else {
        LexCompareAntisymmetric(YearKey(available[0]), YearKey(available[0]));
      }
      if !Truthy(available[0].year) {
        assert YearKey(available[0]) == "";
      }
    }
  }

  /**
   * Without a conference of the chosen year there are no sessions and no
   * fetch; the error names the year, unless there are no conferences at all.
   */
  lemma NoConferenceForYear(memo: map<string, seq<RawSession>>, src: Source, yearParam: Option<string>, available: seq<Conference>)
    requires FindByYear(available, SelectYear(yearParam, available)).None?
    ensures var (memo', data) := AfterSort(memo, src, yearParam, available);
            && memo' == memo && data.sessions == [] && data.rawSessions == []
            && (|available| > 0 ==> data.error == Some("No conference found for year " + SelectYear(yearParam, available)))
            && (|available| == 0 ==> data.error.None? && data.selectedYear == SelectYear(yearParam, [])
                                     && (Truthy(yearParam) || data.selectedYear == ""))
  {
  }

  /**
   * With a conference of the chosen year, its sessions are the memo's list
   * or a fresh fetch: on success they are normalised, one display record per
   * raw session; on failure the sessions prefix carries the message and the
   * year and conference list stay.
   */
  lemma SessionsOfSelectedConference(memo: map<string, seq<RawSession>>, src: Source, yearParam: Option<string>, available: seq<Conference>)
    requires FindByYear(available, SelectYear(yearParam, available)).Some?
    ensures var sel := FindByYear(available, SelectYear(yearParam, available)).value;
            var (memo', data) := AfterSort(memo, src, yearParam, available);
            var r := GetSessionsSpec(memo, src, sel.id).1;
            && sel.year == Some(SelectYear(yearParam, available))
            && data.selectedYear == SelectYear(yearParam, available) && data.availableConferences == available
            && (r.Success? ==> data.error.None? && data.rawSessions == r.value && |data.sessions| == |r.value|
                               && forall i :: 0 <= i < |r.value| ==> data.sessions[i] == Normalize(r.value[i]))
            && (r.Failure? ==> data.sessions == [] && memo' == memo
                               && data.error == Some("Error loading sessions: " + Reason(Message(r.error))))
            && (sel.id in memo ==> data.rawSessions == memo[sel.id] && memo' == memo)
  {
  }

  // ---------------------------------------------------------------------------
  // The imperative loader

  /** `rawConfs.sort((a, b) => b.year.localeCompare(a.year))`, in place, by insertion. */
  method SortByYearDesc(a: array<Conference>)
    modifies a
    ensures SortedByYearDesc(a[..])
    ensures multiset(a[..]) == multiset(old(a[..]))
  {
    var i := 0;
    while i < a.Length
      invariant 0 <= i <= a.Length
      invariant forall p, q :: 0 <= p < q < i ==> LexLe(YearKey(a[q]), YearKey(a[p]))
      invariant multiset(a[..]) == multiset(old(a[..]))
    {
      InsertLast(a, i);
      i := i + 1;
    }
  }

  /** Move `a[i]` down past every element with an earlier year; `a[..i]` was sorted and `a[..i + 1]` is. */
  method InsertLast(a: array<Conference>, i: int)
    requires 0 <= i < a.Length
    requires forall p, q :: 0 <= p < q < i ==> LexLe(YearKey(a[q]), YearKey(a[p]))
    modifies a
    ensures forall p, q :: 0 <= p < q <= i ==> LexLe(YearKey(a[q]), YearKey(a[p]))
    ensures multiset(a[..]) == multiset(old(a[..]))
  {
    var j := i;
    while j > 0 && LexCompare(YearKey(a[j - 1]), YearKey(a[j])) < 0
      invariant 0 <= j <= i
      invariant forall p, q :: 0 <= p < q <= i && p != j && q != j ==> LexLe(YearKey(a[q]), YearKey(a[p]))
      invariant forall q :: j < q <= i ==> LexLe(YearKey(a[q]), YearKey(a[j]))
      invariant multiset(a[..]) == multiset(old(a[..]))
    {
      a[j - 1], a[j] := a[j], a[j - 1];
      j := j - 1;
    }
    if j > 0 {
      LexCompareAntisymmetric(YearKey(a[j - 1]), YearKey(a[j]));
      forall p | 0 <= p < j
        ensures LexLe(YearKey(a[j]), YearKey(a[p]))
      {
        if p < j - 1 {
          LexLeTransitive(YearKey(a[j]), YearKey(a[j - 1]), YearKey(a[p]));
        }
      }
    }
  }

  /** The `loader`: its local variables updated step by step as in the source. */
  method Loader(memo: SessionsMemo, src: Source, yearParam: Option<string>) returns (data: LoaderData)
    modifies memo
    ensures FetchConferences(src).Success? && !SortThrows(FetchConferences(src).value) ==>
              SortedByYearDesc(data.availableConferences)
              && multiset(data.availableConferences) == multiset(FetchConferences(src).value)
    ensures (memo.memo, data) == LoadSpec(old(memo.memo), src, yearParam, data.availableConferences)
  {
    var availableConferences: seq<Conference> := [];
    var selectedYear := "";
    var sessions: seq<Session> := [];
    var rawSessions: seq<RawSession> := [];
    var error: Option<string> := None;

    var fetched := FetchConferences(src);
    if fetched.Failure? {
      error := Some("Error loading conferences: " + Reason(Message(fetched.error)));
    } else if SortThrows(fetched.value) {
      error := Some("Error loading conferences: " + Reason(SortTypeError));
    } else {
      var cs := fetched.value;
      var a := new Conference[|cs|](i requires 0 <= i < |cs| => cs[i]);
      assert a[..] == cs;
      SortByYearDesc(a);
      availableConferences := a[..];
      selectedYear := SelectYear(yearParam, availableConferences);
      var sel := FindByYear(availableConferences, selectedYear);
      if sel.Some? {
        var r := memo.GetSessions(src, sel.value.id);
        if r.Success? {
          rawSessions := r.value;
          sessions := MapSessionData(Some(rawSessions), selectedYear);
        } else {
          error := Some("Error loading sessions: " + Reason(Message(r.error)));
        }
      } else if |availableConferences| > 0 {
        error := Some("No conference found for year " + selectedYear);
      }
    }
    data := LoaderData(rawSessions, sessions, selectedYear, availableConferences, error);
  }
}
