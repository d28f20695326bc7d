/** The `displayedSessions` getter of the videos list: the qualifier filter
    applied to the collection being shown, and the row count derived from it. */
module SessionFilter {
  import opened Catalog

  const YearKey := "year"
  const FocusKey := "focus"
  const TrackKey := "track"
  const DownloadedKey := "downloaded"
  /** The key under which the parser returns the free text of a term. */
  const QueryKey := "_query"

  /** A search term filters only when it is present and not empty. */
  predicate TermActive(term: Option<string>)
  {
    term.Some? && term.value != ""
  }

  /** `a` is obtained from `b` by deleting elements, keeping the order. */
  ghost predicate IsSubsequence<T>(a: seq<T>, b: seq<T>)
    decreases |b|
  {
    if b == [] then a == []
    else (a != [] && a[0] == b[0] && IsSubsequence(a[1..], b[1..])) || IsSubsequence(a, b[1..])
  }

  /** The platform names a `focus:` value is rewritten to before the lookup. */
  function NormalizeFocus(value: string, f: Foundation): string
  {
    var lower := f.lowercase(value);
    if lower == "osx" || lower == "os x" then "OS X"
    else if lower == "ios" then "iOS"
    else value
  }

  // One predicate per qualifier: each holds when the qualifier is absent.

  ghost predicate YearOk(s: Session, q: map<string, string>, f: Foundation)
  {
    YearKey in q ==> f.toInt(q[YearKey]) == Some(s.year)
  }

  ghost predicate FocusOk(s: Session, q: map<string, string>, f: Foundation)
  {
    FocusKey in q ==> NormalizeFocus(q[FocusKey], f) in s.focus
  }

  ghost predicate TrackOk(s: Session, q: map<string, string>, f: Foundation)
  {
    TrackKey in q ==> f.lowercase(s.track) == f.lowercase(q[TrackKey])
  }

  ghost predicate DownloadedOk(s: Session, q: map<string, string>, f: Foundation, hasVideo: string -> bool)
  {
    DownloadedKey in q ==>
      s.hdUrl.Some? && hasVideo(s.hdUrl.value) == f.boolValue(q[DownloadedKey])
  }

  ghost predicate QueryOk(s: Session, q: map<string, string>, f: Foundation)
  {
    QueryKey in q && q[QueryKey] != "" ==> Contains(f.fold(s.title), f.fold(q[QueryKey]))
  }

  /** The closure passed to `filter`: the checks run in order and the first
      failing one rejects; a `downloaded` qualifier decides on its own and the
      free-text check after it is never reached. */
  function Keep(s: Session, q: map<string, string>, f: Foundation, hasVideo: string -> bool): (keep: bool)
    ensures keep <==>
      YearOk(s, q, f) && FocusOk(s, q, f) && TrackOk(s, q, f) &&
      DownloadedOk(s, q, f, hasVideo) &&
      (DownloadedKey !in q ==> QueryOk(s, q, f))
  {
    if YearKey in q && f.toInt(q[YearKey]) != Some(s.year) then false
    else if FocusKey in q && NormalizeFocus(q[FocusKey], f) !in s.focus then false
    else if TrackKey in q && f.lowercase(s.track) != f.lowercase(q[TrackKey]) then false
    else if DownloadedKey in q then
      match s.hdUrl
      case Some(url) => hasVideo(url) == f.boolValue(q[DownloadedKey])
      case Nil => false
    else if QueryKey in q && q[QueryKey] != "" && !Contains(f.fold(s.title), f.fold(q[QueryKey])) then false
    else true
  }

  /** `sessions.filter { ... }` with the closure `Keep`. */
  function Filter(sessions: seq<Session>, q: map<string, string>, f: Foundation, hasVideo: string -> bool): (r: seq<Session>)
    ensures IsSubsequence(r, sessions)
    ensures forall i :: 0 <= i < |r| ==> Keep(r[i], q, f, hasVideo)
    decreases |sessions|
  {
    if sessions == [] then []
    else if Keep(sessions[0], q, f, hasVideo) then [sessions[0]] + Filter(sessions[1..], q, f, hasVideo)
    else Filter(sessions[1..], q, f, hasVideo)
  }

  /** The `displayedSessions` getter, without its write to the selection index:
      the whole collection unless a non-empty term is set, the filtered
      collection otherwise. With a non-empty term the collection must be
      present, since the getter unwraps it. */
  function Displayed(sessions: Option<seq<Session>>, term: Option<string>, f: Foundation, hasVideo: string -> bool): (r: Option<seq<Session>>)
    requires TermActive(term) ==> sessions.Some?
    ensures !TermActive(term) ==> r == sessions
    ensures TermActive(term) ==> r.Some? && IsSubsequence(r.value, sessions.value)
  {
    if TermActive(term) then
      Some(Filter(sessions.value, f.parseQualifiers(term.value), f, hasVideo))
    else
      sessions
  }

  /** `numberOfRowsInTableView`: the length of the displayed list, 0 when it is nil. */
  function RowCount(displayed: Option<seq<Session>>): nat
  {
    match displayed
    case Nil => 0
    case Some(list) => |list|
  }

  lemma {:induction false} SubsequenceLength<T>(a: seq<T>, b: seq<T>)
    requires IsSubsequence(a, b)
    ensures |a| <= |b|
    decreases |b|
  {
    if b != [] {
      if a != [] && a[0] == b[0] && IsSubsequence(a[1..], b[1..]) {
        SubsequenceLength(a[1..], b[1..]);
      } else {
        SubsequenceLength(a, b[1..]);
      }
    }
  }

  /** Every element of a subsequence is an element of the sequence. */
  lemma {:induction false} SubsequenceMembers<T>(a: seq<T>, b: seq<T>, x: T)
    requires IsSubsequence(a, b) && x in a
    ensures x in b
    decreases |b|
  {
    if b != [] {
      if a != [] && a[0] == b[0] && IsSubsequence(a[1..], b[1..]) {
        if x != a[0] {
          SubsequenceMembers(a[1..], b[1..], x);
        }
      } else {
        SubsequenceMembers(a, b[1..], x);
      }
    }
  }

  /** The row count never exceeds the size of the collection being shown,
      and equals it when no term filters. */
  lemma RowCountBound(sessions: seq<Session>, term: Option<string>, f: Foundation, hasVideo: string -> bool)
    ensures RowCount(Displayed(Some(sessions), term, f, hasVideo)) <= |sessions|
    ensures !TermActive(term) ==> RowCount(Displayed(Some(sessions), term, f, hasVideo)) == |sessions|
  {
    if TermActive(term) {
      SubsequenceLength(Displayed(Some(sessions), term, f, hasVideo).value, sessions);
    }
  }

  /** Every session the getter displays comes from the collection being shown. */
  lemma DisplayedFromSessions(sessions: Option<seq<Session>>, term: Option<string>, f: Foundation, hasVideo: string -> bool, s: Session)
    requires TermActive(term) ==> sessions.Some?
    requires Displayed(sessions, term, f, hasVideo).Some? && s in Displayed(sessions, term, f, hasVideo).value
    ensures sessions.Some? && s in sessions.value
  {
    if TermActive(term) {
      SubsequenceMembers(Displayed(sessions, term, f, hasVideo).value, sessions.value, s);
    }
  }

  /** A session is displayed exactly when it is in the collection and the
      closure keeps it. */
  lemma {:induction false} FilterMembers(sessions: seq<Session>, q: map<string, string>, f: Foundation, hasVideo: string -> bool, s: Session)
    ensures s in Filter(sessions, q, f, hasVideo) <==> s in sessions && Keep(s, q, f, hasVideo)
    decreases |sessions|
  {
    if sessions != [] {
      FilterMembers(sessions[1..], q, f, hasVideo, s);
      assert sessions == [sessions[0]] + sessions[1..];
    }
  }

  /** Filtering keeps every copy of a kept session and drops every copy of a
      rejected one. */
  lemma {:induction false} FilterCounts(sessions: seq<Session>, q: map<string, string>, f: Foundation, hasVideo: string -> bool, s: Session)
    ensures multiset(Filter(sessions, q, f, hasVideo))[s] ==
      if Keep(s, q, f, hasVideo) then multiset(sessions)[s] else 0
    decreases |sessions|
  {
    if sessions != [] {
      FilterCounts(sessions[1..], q, f, hasVideo, s);
      assert sessions == [sessions[0]] + sessions[1..];
    }
  }

  /** Filtering commutes with concatenation: the relative order of the kept
      sessions is the order of the collection. */
  lemma {:induction false} FilterAppend(a: seq<Session>, b: seq<Session>, q: map<string, string>, f: Foundation, hasVideo: string -> bool)
    ensures Filter(a + b, q, f, hasVideo) == Filter(a, q, f, hasVideo) + Filter(b, q, f, hasVideo)
    decreases |a|
  {
    if a == [] {
      assert a + b == b;
    } else {
      assert (a + b)[0] == a[0] && (a + b)[1..] == a[1..] + b;
      FilterAppend(a[1..], b, q, f, hasVideo);
    }
  }

  /** When the closure keeps every session the filter returns the collection. */
  lemma {:induction false} FilterKeepsAll(sessions: seq<Session>, q: map<string, string>, f: Foundation, hasVideo: string -> bool)
    requires forall i :: 0 <= i < |sessions| ==> Keep(sessions[i], q, f, hasVideo)
    ensures Filter(sessions, q, f, hasVideo) == sessions
    decreases |sessions|
  {
    if sessions != [] {
      FilterKeepsAll(sessions[1..], q, f, hasVideo);
    }
  }

  /** A term that parses to no qualifier and no free text shows every session. */
  lemma NoQualifiersShowsAll(sessions: seq<Session>, q: map<string, string>, f: Foundation, hasVideo: string -> bool)
    requires YearKey !in q && FocusKey !in q && TrackKey !in q && DownloadedKey !in q
    requires QueryKey in q ==> q[QueryKey] == ""
    ensures Filter(sessions, q, f, hasVideo) == sessions
  {
    FilterKeepsAll(sessions, q, f, hasVideo);
  }

  /** A `year:` value that is not an integer matches no session (it follows
      from the contracts of `Filter` and `Keep`). */
  lemma NonIntegerYearShowsNothing(sessions: seq<Session>, q: map<string, string>, f: Foundation, hasVideo: string -> bool)
    requires YearKey in q && f.toInt(q[YearKey]) == Nil
    ensures Filter(sessions, q, f, hasVideo) == []
  {
  }

  /** With a `downloaded:` qualifier the free text has no effect: the same
      sessions are shown whether or not the term also carries free text. */
  lemma {:induction false} DownloadedIgnoresQuery(sessions: seq<Session>, q: map<string, string>, f: Foundation, hasVideo: string -> bool)
    requires DownloadedKey in q
    ensures Filter(sessions, q, f, hasVideo) == Filter(sessions, q - {QueryKey}, f, hasVideo)
    decreases |sessions|
  {
    if sessions != [] {
      DownloadedIgnoresQuery(sessions[1..], q, f, hasVideo);
      var s := sessions[0];
      assert Keep(s, q, f, hasVideo) == Keep(s, q - {QueryKey}, f, hasVideo);
    }
  }

  /** With a `downloaded:` qualifier every displayed session has a download
      URL whose download state is the one the qualifier asks for. */
  lemma DownloadedNeedsUrl(sessions: seq<Session>, q: map<string, string>, f: Foundation, hasVideo: string -> bool, s: Session)
    requires DownloadedKey in q && s in Filter(sessions, q, f, hasVideo)
    ensures s.hdUrl.Some? && hasVideo(s.hdUrl.value) == f.boolValue(q[DownloadedKey])
  {
    FilterMembers(sessions, q, f, hasVideo, s);
  }

  /** `focus:` compares the normalised value exactly: any spelling whose
      lower case is "osx" or "os x" looks for "OS X", "ios" looks for "iOS",
      and any other value is looked up verbatim. */
  lemma FocusNormalization(value: string, f: Foundation)
    ensures f.lowercase(value) == "osx" || f.lowercase(value) == "os x" ==> NormalizeFocus(value, f) == "OS X"
    ensures f.lowercase(value) == "ios" ==> NormalizeFocus(value, f) == "iOS"
    ensures f.lowercase(value) !in {"osx", "os x", "ios"} ==> NormalizeFocus(value, f) == value
  {
  }
}
