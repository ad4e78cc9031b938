/**
 * The listing rules of app/routes/submissions._index.tsx: the filter every
 * listed session must pass, the order of tags (four-digit tags last), the
 * colour class of a status and of a tag, and the option lists of the
 * filter drop-downs.
 */
module SubmissionsTable {
  import opened Wrappers
  import opened Text
  import opened Seqs
  import opened Sessions

  // ---------------------------------------------------------------------------
  // The filter

  /** The five filter fields; the empty string imposes nothing. */
  datatype Filters = Filters(title: string, author: string, format: string, tag: string, status: string)

  const NoFilters := Filters("", "", "", "", "")

  /** `hay.toLowerCase().includes(needle.toLowerCase())`. */
  predicate IncludesIgnoringCase(hay: string, needle: string) {
    Includes(Lower(hay), Lower(needle))
  }

  /** The callback of `sessions.filter`. */
  predicate Matches(s: Session, f: Filters) {
    && (f.title == "" || IncludesIgnoringCase(s.title, f.title))
    && (f.author == "" || exists i :: 0 <= i < |s.speakers| && IncludesIgnoringCase(s.speakers[i].name, f.author))
    && (f.format == "" || s.format == f.format)
    && (f.tag == "" || f.tag in s.tags)
    && (f.status == "" || s.status == f.status)
  }

  /** `sessions.filter(...)`: the sessions that pass, in their order. */
  function Filtered(sessions: seq<Session>, f: Filters): (r: seq<Session>)
    ensures |r| <= |sessions|
    ensures forall s :: s in r <==> s in sessions && Matches(s, f)
  {
    if sessions == [] then []
    else (if Matches(sessions[0], f) then [sessions[0]] else []) + Filtered(sessions[1..], f)
  }

  /** Filtering keeps the order: it distributes over concatenation. */
  lemma {:induction false} FilteredAppend(a: seq<Session>, b: seq<Session>, f: Filters)
    ensures Filtered(a + b, f) == Filtered(a, f) + Filtered(b, f)
  {
    if a == [] {
      assert a + b == b;
    } else {
      assert (a + b)[0] == a[0] && (a + b)[1..] == a[1..] + b;
      FilteredAppend(a[1..], b, f);
    }
  }

  /** With every filter empty, every session is listed. */
  lemma {:induction false} NoFiltersKeepAll(sessions: seq<Session>)
    ensures Filtered(sessions, NoFilters) == sessions
  {
    if sessions != [] {
      NoFiltersKeepAll(sessions[1..]);
      assert [sessions[0]] + sessions[1..] == sessions;
    }
  }

  /**
   * The title filter matches when the lower-cased filter occurs somewhere in
   * the lower-cased title, and the filter's own case never matters.
   */
  lemma TitleFilterIgnoresCase(s: Session, f: Filters)
    requires f.title != ""
    ensures IncludesIgnoringCase(s.title, f.title) <==> exists i :: OccursAt(Lower(s.title), Lower(f.title), i)
    ensures Matches(s, f.(title := Lower(f.title))) <==> Matches(s, f)
  {
    IncludesIffOccurs(Lower(s.title), Lower(f.title));
    LowerIdempotent(f.title);
    assert Lower(f.title) != "";
  }

  /** The author filter is case-insensitive too. */
  lemma AuthorFilterIgnoresCase(s: Session, f: Filters)
    requires f.author != ""
    ensures Matches(s, f.(author := Lower(f.author))) <==> Matches(s, f)
  {
    LowerIdempotent(f.author);
    assert Lower(f.author) != "";
  }

  // ---------------------------------------------------------------------------
  // Tag order

  /** `/^\d{4}$/.test(t)`: exactly four ASCII digits. */
  predicate IsFourDigit(t: string) {
    |t| == 4 && forall i :: 0 <= i < 4 ==> '0' <= t[i] <= '9'
  }

  /** The tag comparator: a four-digit tag after any other, else the string order. */
  function TagCompare(a: string, b: string): (r: int)
    ensures -1 <= r <= 1
    ensures IsFourDigit(a) && !IsFourDigit(b) ==> r == 1
    ensures !IsFourDigit(a) && IsFourDigit(b) ==> r == -1
    ensures IsFourDigit(a) == IsFourDigit(b) ==> r == LexCompare(a, b)
  {
    if IsFourDigit(a) && !IsFourDigit(b) then 1
    else if !IsFourDigit(a) && IsFourDigit(b) then -1
    else LexCompare(a, b)
  }

  predicate TagLe(a: string, b: string) {
    TagCompare(a, b) <= 0
  }

  lemma TagLeTotal(a: string, b: string)
    ensures TagLe(a, b) || TagLe(b, a)
  {
    LexLeTotal(a, b);
  }

  lemma TagLeTransitive(a: string, b: string, c: string)
    requires TagLe(a, b) && TagLe(b, c)
    ensures TagLe(a, c)
  {
    if IsFourDigit(a) == IsFourDigit(b) == IsFourDigit(c) {
      LexLeTransitive(a, b, c);
    }
  }

  predicate TagsSorted(tags: seq<string>) {
    forall i, j :: 0 <= i < j < |tags| ==> TagLe(tags[i], tags[j])
  }

  /** Insert `t` after every leading tag ordered before or with it. */
  function InsertTag(t: string, tags: seq<string>): (r: seq<string>)
    ensures |r| == |tags| + 1
    ensures multiset(r) == multiset(tags) + multiset{t}
  {
    if tags == [] then [t]
    else
      assert tags == [tags[0]] + tags[1..];
      if TagLe(tags[0], t) then [tags[0]] + InsertTag(t, tags[1..]) else [t] + tags
  }

  /** A tag ordered before `t` and before every tag of `tail` is ordered before every tag after inserting `t`. */
  lemma InsertTagBounded(first: string, t: string, tail: seq<string>)
    requires TagLe(first, t)
    requires forall k :: 0 <= k < |tail| ==> TagLe(first, tail[k])
    ensures forall k :: 0 <= k < |InsertTag(t, tail)| ==> TagLe(first, InsertTag(t, tail)[k])
  {
    var rest := InsertTag(t, tail);
    forall k | 0 <= k < |rest|
      ensures TagLe(first, rest[k])
    {
      assert rest[k] in multiset(rest);
      if rest[k] != t {
        assert rest[k] in multiset(tail);
      }
    }
  }

  /** Inserting into a sorted list keeps it sorted. */
  lemma {:induction false} InsertTagSorted(t: string, tags: seq<string>)
    requires TagsSorted(tags)
    ensures TagsSorted(InsertTag(t, tags))
  {
    if tags == [] {
    } else if TagLe(tags[0], t) {
      var tail := tags[1..];
      var rest := InsertTag(t, tail);
      InsertTagSorted(t, tail);
      InsertTagBounded(tags[0], t, tail);
      var r := InsertTag(t, tags);
      assert r == [tags[0]] + rest;
      forall i, j | 0 <= i < j < |r|
        ensures TagLe(r[i], r[j])
      {
        if i > 0 {
          assert r[i] == rest[i - 1] && r[j] == rest[j - 1];
        } else {
          assert r[j] == rest[j - 1];
        }
      }
    } else {
      TagLeTotal(tags[0], t);
      var r := InsertTag(t, tags);
      assert r == [t] + tags;
      forall i, j | 0 <= i < j < |r|
        ensures TagLe(r[i], r[j])
      {
        if i > 0 {
          assert r[i] == tags[i - 1] && r[j] == tags[j - 1];
        } else {
          assert r[j] == tags[j - 1];
          if j > 1 {
            TagLeTransitive(t, tags[0], tags[j - 1]);
          }
        }
      }
    }
  }

  /** `[...tags].sort(comparator)`, by insertion. */
  function SortTags(tags: seq<string>): (r: seq<string>)
    ensures |r| == |tags|
    ensures TagsSorted(r)
    ensures multiset(r) == multiset(tags)
  {
    if tags == [] then []
    else
      assert tags == [tags[0]] + tags[1..];
      InsertTagSorted(tags[0], SortTags(tags[1..]));
      InsertTag(tags[0], SortTags(tags[1..]))
  }

  /** In a sorted tag list every tag that is not four digits comes before every four-digit tag. */
  lemma FourDigitTagsLast(tags: seq<string>, i: int, j: int)
    requires 0 <= i < j < |tags|
    requires IsFourDigit(SortTags(tags)[i])
    ensures IsFourDigit(SortTags(tags)[j])
  {
    var r := SortTags(tags);
    assert TagLe(r[i], r[j]);
  }

  // ---------------------------------------------------------------------------
  // Colour classes

  const Green := "bg-green-100 text-green-800"
  const Blue := "bg-blue-100 text-blue-800"
  const Red := "bg-red-100 text-red-800"
  const Gray := "bg-gray-100 text-gray-800"

  /** `getStatusClassName(status)`: the colour of a status, matched without regard to case. */
  function GetStatusClassName(status: Option<string>): (r: string)
    ensures r == Green <==> Truthy(status) && Lower(status.value) in ["approved", "accepted", "confirmed"]
    ensures r == Blue <==> Truthy(status) && Lower(status.value) in ["pending", "submitted"]
    ensures r == Red <==> Truthy(status) && Lower(status.value) in ["rejected", "declined"]
    ensures r in [Green, Blue, Red, Gray]
  {
    if !Truthy(status) then Gray
    else match Lower(status.value)
      case "approved" => Green
      case "accepted" => Green
      case "confirmed" => Green
      case "pending" => Blue
      case "submitted" => Blue
      case "rejected" => Red
      case "declined" => Red
      case _ => Gray
  }

  /** The status colour does not depend on the status's case. */
  lemma StatusClassIgnoresCase(status: string)
    ensures GetStatusClassName(Some(Lower(status))) == GetStatusClassName(Some(status))
  {
    LowerIdempotent(status);
  }

  const DeniedTags: seq<string> := ["nei", "no", "rejected"]
  const AcceptedTags: seq<string> :=
    ["accepted", "confirmed", "ja", "ai", "arch", "bankers", "core", "data", "devex", "duplikat", "exp",
     "front", "infra", "lang", "lightning", "misc", "ops", "popcorn", "proc", "qa", "sec"]

  /** The colour of a tag in a row: the denied list first, then the accepted list, case-insensitively. */
  function TagClass(tag: string): (r: string)
    ensures r == Red <==> Lower(tag) in DeniedTags
    ensures r == Green <==> Lower(tag) !in DeniedTags && Lower(tag) in AcceptedTags
    ensures r == Gray <==> Lower(tag) !in DeniedTags && Lower(tag) !in AcceptedTags
  {
    var lower := Lower(tag);
    if lower in DeniedTags then Red else if lower in AcceptedTags then Green else Gray
  }

  /** The tag colour does not depend on the tag's case. */
  lemma TagClassIgnoresCase(tag: string)
    ensures TagClass(Lower(tag)) == TagClass(tag)
  {
    LowerIdempotent(tag);
  }

  // ---------------------------------------------------------------------------
  // Option lists

  /** `sessions.map(s => s.format)`. */
  function Formats(sessions: seq<Session>): (r: seq<string>)
    ensures |r| == |sessions| && forall i :: 0 <= i < |sessions| ==> r[i] == sessions[i].format
  {
    seq(|sessions|, i requires 0 <= i < |sessions| => sessions[i].format)
  }

  /** `sessions.map(s => s.status || '')`; the normalised status is always a string. */
  function Statuses(sessions: seq<Session>): (r: seq<string>)
    ensures |r| == |sessions| && forall i :: 0 <= i < |sessions| ==> r[i] == sessions[i].status
  {
    seq(|sessions|, i requires 0 <= i < |sessions| => Or(Some(sessions[i].status), ""))
  }

  /** `sessions.flatMap(s => s.tags)`. */
  function AllTags(sessions: seq<Session>): (r: seq<string>)
    ensures forall t :: t in r <==> exists i :: 0 <= i < |sessions| && t in sessions[i].tags
  {
    if sessions == [] then []
    else
      var rest := AllTags(sessions[1..]);
      assert forall i :: 0 <= i < |sessions[1..]| ==> sessions[1..][i] == sessions[i + 1];
      sessions[0].tags + rest
  }

  /** `Array.from(new Set(sessions.map(s => s.format)))`: each format once, in order of first appearance. */
  function FormatOptions(sessions: seq<Session>): (r: seq<string>)
    ensures NoDuplicates(r)
    ensures forall x :: x in r <==> exists i :: 0 <= i < |sessions| && sessions[i].format == x
  {
    var r := Dedup(Formats(sessions));
    assert forall x :: x in r ==> x in Formats(sessions);
    r
  }

  /** The status options: each status once, in order of first appearance. */
  function StatusOptions(sessions: seq<Session>): (r: seq<string>)
    ensures NoDuplicates(r)
    ensures forall x :: x in r <==> exists i :: 0 <= i < |sessions| && sessions[i].status == x
  {
    var r := Dedup(Statuses(sessions));
    assert forall x :: x in r ==> x in Statuses(sessions);
    r
  }

  /** The tag options: each tag once, sorted with four-digit tags last. */
  function TagOptions(sessions: seq<Session>): (r: seq<string>)
    ensures NoDuplicates(r) && TagsSorted(r)
    ensures forall t :: t in r <==> exists i :: 0 <= i < |sessions| && t in sessions[i].tags
  {
    var d := Dedup(AllTags(sessions));
    var r := SortTags(d);
    assert forall t :: t in r <==> t in d by {
      forall t
        ensures t in r <==> t in d
      {
        assert t in r <==> t in multiset(r);
        assert t in d <==> t in multiset(d);
      }
    }
    assert forall t :: t in d <==> t in AllTags(sessions);
    SortedDistinct(d, r);
    r
  }

  /** A list without duplicates holds each element at most once. */
  lemma {:induction false} NoDuplicatesCount(d: seq<string>, x: string)
    requires NoDuplicates(d)
    ensures multiset(d)[x] <= 1
  {
    if d != [] {
      var tail := d[1..];
      assert d == [d[0]] + tail;
      assert NoDuplicates(tail) by {
        forall i, j | 0 <= i < j < |tail|
          ensures tail[i] != tail[j]
        {
          assert tail[i] == d[i + 1] && tail[j] == d[j + 1];
        }
      }
      NoDuplicatesCount(tail, x);
      if x == d[0] {
        assert x !in tail by {
          forall k | 0 <= k < |tail|
            ensures tail[k] != x
          {
            assert tail[k] == d[k + 1];
          }
        }
      }
    }
  }

  /** A permutation of a list without duplicates has none either. */
  lemma SortedDistinct(d: seq<string>, r: seq<string>)
    requires NoDuplicates(d) && multiset(r) == multiset(d)
    ensures NoDuplicates(r)
  {
    forall i, j | 0 <= i < j < |r|
      ensures r[i] != r[j]
    {
      if r[i] == r[j] {
        assert multiset(r)[r[i]] >= 2 by {
          assert r == r[..i] + [r[i]] + r[i + 1..j] + [r[j]] + r[j + 1..];
        }
        NoDuplicatesCount(d, r[i]);
      }
    }
  }
}
