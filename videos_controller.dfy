/** The session-browsing state of `VideosViewController`: the effective and
    wanted mode, the two fetched collections, the collection being shown, the
    search term and the index of the last selected row. Every Swift property
    observer (`didSet`) becomes the body of the setter method that models an
    assignment to that property; an assignment a `didSet` makes to its own
    property is a plain field write, because Swift does not run the observer
    again for it. */
module Videos {
  import opened Catalog
  import opened SessionFilter
  import opened ControllerMode

  class VideosViewController {
    /** The Foundation string services and the qualifier parser. */
    const text: Foundation
    /** What the video store answers to `hasVideo(url)` at present. */
    var hasVideo: string -> bool

    var mode: Mode
    var wantedMode: Mode
    var loadedSessions: Option<seq<Session>>
    var loadedEvents: Option<seq<Session>>
    var sessions: Option<seq<Session>>
    var currentSearchTerm: Option<string>
    var indexOfLastSelectedRow: int

    // The table view, as far as the controller drives it.
    /** The row count the table view obtained at its last reload. */
    var rowCount: nat
    /** The row the last reload asked the table view to select, if any. */
    var reselectedRow: Option<int>
    /** Whether the progress indicator is spinning. */
    ghost var animating: bool

    /** The displayed list can be computed: a non-empty term needs a collection. */
    ghost predicate Searchable()
      reads this
    {
      TermActive(currentSearchTerm) ==> sessions.Some?
    }

    /** What every public operation keeps: only a showing mode is ever wanted,
        `mode` is never `Error`, and a showing mode shows its own collection. */
    ghost predicate Valid()
      reads this
    {
      IsShowing(wantedMode) && !mode.Error? && Searchable() &&
      (IsShowing(mode) ==> sessions.Some? && sessions == DataFor(mode, loadedSessions, loadedEvents))
    }

    /** The table view after `reloadTablePreservingSelection`: it shows the
        displayed list, the getter has cleared the index when a term filters,
        and the remaining index, if any, was handed back to the table view. */
    ghost predicate Reloaded(previousIndex: int)
      reads this
    {
      Searchable() &&
      rowCount == RowCount(Displayed(sessions, currentSearchTerm, text, hasVideo)) &&
      indexOfLastSelectedRow == (if TermActive(currentSearchTerm) then -1 else previousIndex) &&
      reselectedRow == (if indexOfLastSelectedRow > -1 then Some(indexOfLastSelectedRow) else Nil)
    }

    /** The state after `mode = m` and its observer. */
    twostate predicate ModeAssigned(m: Mode)
      reads this
    {
      mode == Resolve(m, loadedSessions, loadedEvents) &&
      (m.Loading? ==> animating) &&
      if IsShowing(mode) then
        sessions == DataFor(mode, loadedSessions, loadedEvents) && !animating &&
        Reloaded(old(indexOfLastSelectedRow))
      else
        sessions == old(sessions) && indexOfLastSelectedRow == old(indexOfLastSelectedRow) &&
        rowCount == old(rowCount) && reselectedRow == old(reselectedRow) &&
        (!m.Loading? ==> animating == old(animating))
    }

    constructor (text: Foundation, hasVideo: string -> bool)
      ensures this.text == text && this.hasVideo == hasVideo
      ensures mode == None && wantedMode == ShowingSessions
      ensures loadedSessions == Nil && loadedEvents == Nil && sessions == Nil
      ensures currentSearchTerm == Nil && indexOfLastSelectedRow == -1
      ensures rowCount == 0 && reselectedRow == Nil && !animating
      ensures Valid()
    {
      this.text := text;
      this.hasVideo := hasVideo;
      mode := None;
      wantedMode := ShowingSessions;
      loadedSessions := Nil;
      loadedEvents := Nil;
      sessions := Nil;
      currentSearchTerm := Nil;
      indexOfLastSelectedRow := -1;
      rowCount := 0;
      reselectedRow := Nil;
      animating := false;
    }

    /** `viewDidLoad`, as far as this state goes: enter `Loading`. The two
        fetches it starts complete later through `SetLoadedSessions` and
        `SetLoadedEvents`. */
    method ViewDidLoad()
      requires Valid()
      modifies this`mode, this`animating, this`sessions, this`indexOfLastSelectedRow, this`rowCount, this`reselectedRow
      ensures Valid() && ModeAssigned(Loading)
      ensures mode == Loading && animating
    {
      SetMode(Loading);
    }

    /** `displayedSessions`: the getter, including its write to the index. */
    method DisplayedSessions() returns (displayed: Option<seq<Session>>)
      requires Searchable()
      modifies this`indexOfLastSelectedRow
      ensures displayed == Displayed(sessions, currentSearchTerm, text, hasVideo)
      ensures indexOfLastSelectedRow == if TermActive(currentSearchTerm) then -1 else old(indexOfLastSelectedRow)
    {
      if currentSearchTerm.Some? && currentSearchTerm.value != "" {
        var qualifiers := text.parseQualifiers(currentSearchTerm.value);
        indexOfLastSelectedRow := -1;
        displayed := Some(Filter(sessions.value, qualifiers, text, hasVideo));
      } else {
        displayed := sessions;
      }
    }

    /** `numberOfRowsInTableView`. */
    method NumberOfRowsInTableView() returns (count: nat)
      requires Searchable()
      modifies this`indexOfLastSelectedRow
      ensures count == RowCount(Displayed(sessions, currentSearchTerm, text, hasVideo))
      ensures sessions.Some? ==> count <= |sessions.value|
      ensures indexOfLastSelectedRow == if TermActive(currentSearchTerm) then -1 else old(indexOfLastSelectedRow)
    {
      var displayed := DisplayedSessions();
      count := if displayed.Some? then |displayed.value| else 0;
      if sessions.Some? {
        RowCountBound(sessions.value, currentSearchTerm, text, hasVideo);
      }
    }

    /** `reloadTablePreservingSelection`: reload the rows, then reselect the
        last selected row if the index is still set. No bounds check is made
        against the new row count. */
    method ReloadTablePreservingSelection()
      requires Searchable()
      modifies this`indexOfLastSelectedRow, this`rowCount, this`reselectedRow
      ensures Reloaded(old(indexOfLastSelectedRow))
      ensures TermActive(currentSearchTerm) ==> reselectedRow == Nil
    {
      rowCount := NumberOfRowsInTableView();
      if indexOfLastSelectedRow > -1 {
        reselectedRow := Some(indexOfLastSelectedRow);
      } else {
        reselectedRow := Nil;
      }
    }

    /** `sessions = s` with its observer: stop the indicator and reload. */
    method SetSessions(s: seq<Session>)
      modifies this`sessions, this`animating, this`indexOfLastSelectedRow, this`rowCount, this`reselectedRow
      ensures sessions == Some(s) && !animating
      ensures Reloaded(old(indexOfLastSelectedRow))
    {
      sessions := Some(s);
      animating := false;
      ReloadTablePreservingSelection();
    }

    /** `mode = m` with its observer. Entering a showing mode whose collection
        has not arrived writes `Loading` into the field without running the
        observer again, so the indicator is not restarted there. */
    method SetMode(m: Mode)
      requires Searchable()
      modifies this`mode, this`animating, this`sessions, this`indexOfLastSelectedRow, this`rowCount, this`reselectedRow
      ensures ModeAssigned(m)
    {
      mode := m;
      match m {
        case Loading =>
          animating := true;
        case ShowingSessions =>
          if loadedSessions.Some? {
            animating := false;
            SetSessions(loadedSessions.value);
          } else {
            mode := Loading;
          }
        case ShowingEvents =>
          if loadedEvents.Some? {
            animating := false;
            SetSessions(loadedEvents.value);
          } else {
            mode := Loading;
          }
        case _ =>
      }
    }

    /** `loadedSessions = v`, the completion of the sessions fetch (`v` is nil
        when it failed): the mode is reassigned from `wantedMode`. */
    method SetLoadedSessions(v: Option<seq<Session>>)
      requires Valid()
      modifies this`loadedSessions, this`mode, this`animating, this`sessions, this`indexOfLastSelectedRow, this`rowCount, this`reselectedRow
      ensures Valid() && loadedSessions == v
      ensures ModeAssigned(wantedMode)
      ensures mode == Resolve(wantedMode, v, loadedEvents)
    {
      loadedSessions := v;
      SetMode(wantedMode);
    }

    /** `loadedEvents = v`, the completion of the events fetch. */
    method SetLoadedEvents(v: Option<seq<Session>>)
      requires Valid()
      modifies this`loadedEvents, this`mode, this`animating, this`sessions, this`indexOfLastSelectedRow, this`rowCount, this`reselectedRow
      ensures Valid() && loadedEvents == v
      ensures ModeAssigned(wantedMode)
      ensures mode == Resolve(wantedMode, loadedSessions, v)
    {
      loadedEvents := v;
      SetMode(wantedMode);
    }

    /** `wantedMode = w` with its observer: the mode follows only when it is
        not `Loading`, `Error` or `None`; otherwise the request waits for the
        next fetch completion. */
    method SetWantedMode(w: Mode)
      requires Valid()
      modifies this`wantedMode, this`mode, this`animating, this`sessions, this`indexOfLastSelectedRow, this`rowCount, this`reselectedRow
      ensures wantedMode == w
      ensures IsShowing(w) ==> Valid()
      ensures old(mode).Loading? || old(mode).Error? || old(mode).None? ==>
        mode == old(mode) && sessions == old(sessions) && animating == old(animating) &&
        indexOfLastSelectedRow == old(indexOfLastSelectedRow) &&
        rowCount == old(rowCount) && reselectedRow == old(reselectedRow)
      ensures !(old(mode).Loading? || old(mode).Error? || old(mode).None?) ==> ModeAssigned(w)
    {
      wantedMode := w;
      if mode != Loading && mode != Error && mode != None {
        SetMode(wantedMode);
      }
    }

    /** `switchMode`, called by the header's segmented control. */
    method SwitchMode(index: int)
      requires Valid()
      modifies this`wantedMode, this`mode, this`animating, this`sessions, this`indexOfLastSelectedRow, this`rowCount, this`reselectedRow
      ensures Valid()
      ensures RequestedMode(index).Nil? ==> unchanged(this)
      ensures RequestedMode(index).Some? ==>
        wantedMode == RequestedMode(index).value &&
        mode == (if old(mode).Loading? || old(mode).None? then old(mode)
                 else Resolve(wantedMode, loadedSessions, loadedEvents))
    ensures RequestedMode(index).Some? && (old(mode).Loading? || old(mode).None?) ==>
      sessions == old(sessions) && animating == old(animating) &&
      indexOfLastSelectedRow == old(indexOfLastSelectedRow) &&
      rowCount == old(rowCount) && reselectedRow == old(reselectedRow)
    ensures RequestedMode(index).Some? && !(old(mode).Loading? || old(mode).None?) ==>
      ModeAssigned(wantedMode)
    {
      match index {
        case 0 => SetWantedMode(ShowingSessions);
        case 1 => SetWantedMode(ShowingEvents);
        case _ =>
      }
    }

    /** `search(term)`: store the term; its observer reloads the table. The
        caller only searches once a collection is shown (the header is enabled
        when `sessions` is first set), or with an empty term. */
    method Search(term: string)
      requires Valid()
      requires sessions.Some? || term == ""
      modifies this`currentSearchTerm, this`indexOfLastSelectedRow, this`rowCount, this`reselectedRow
      ensures Valid() && currentSearchTerm == Some(term)
      ensures Reloaded(old(indexOfLastSelectedRow))
      ensures term != "" ==> indexOfLastSelectedRow == -1 && reselectedRow == Nil
    {
      currentSearchTerm := Some(term);
      ReloadTablePreservingSelection();
    }

    /** The video store finished a download (or otherwise changed what
        `hasVideo` answers): the observer reloads the table. */
    method VideoStoreChanged(h: string -> bool)
      requires Searchable()
      modifies this`hasVideo, this`indexOfLastSelectedRow, this`rowCount, this`reselectedRow
      ensures hasVideo == h
      ensures Reloaded(old(indexOfLastSelectedRow))
    {
      hasVideo := h;
      ReloadTablePreservingSelection();
    }

    /** `tableViewSelectionDidChange`: a selected row is recorded and the
        session on it is handed to the details view; reading it evaluates the
        getter, which clears the index again when a term filters. No row
        selected hands over nothing and keeps the index. */
    method SelectionDidChange(selectedRow: int) returns (detail: Option<Session>)
      requires Searchable()
      requires selectedRow < RowCount(Displayed(sessions, currentSearchTerm, text, hasVideo))
      modifies this`indexOfLastSelectedRow
      ensures selectedRow < 0 ==> detail == Nil && indexOfLastSelectedRow == old(indexOfLastSelectedRow)
      ensures selectedRow >= 0 ==>
        detail == Some(Displayed(sessions, currentSearchTerm, text, hasVideo).value[selectedRow]) &&
        indexOfLastSelectedRow == (if TermActive(currentSearchTerm) then -1 else selectedRow)
    {
      if selectedRow >= 0 {
        indexOfLastSelectedRow := selectedRow;
        var displayed := DisplayedSessions();
        detail := Some(displayed.value[selectedRow]);
      } else {
        detail := Nil;
      }
    }
  }

  /** Events are asked for while both fetches are still running; the events
      arriving is enough to show them. */
  method EventsRequestedWhileLoading(text: Foundation, hasVideo: string -> bool, events: seq<Session>)
  {
    var c := new VideosViewController(text, hasVideo);
    c.ViewDidLoad();
    c.SwitchMode(1);
    assert c.mode == Loading && c.wantedMode == ShowingEvents;
    assert c.sessions == Nil && c.rowCount == 0 && c.animating;
    c.SetLoadedSessions(Nil);
    assert c.mode == Loading;
    c.SetLoadedEvents(Some(events));
    assert c.mode == ShowingEvents && c.sessions == Some(events);
    var shown := c.DisplayedSessions();
    assert shown == Some(events);
  }

  /** A selected row survives a refresh only while no term filters, and
      clearing the term afterwards does not bring it back. */
  method SelectionAcrossSearch(text: Foundation, hasVideo: string -> bool, all: seq<Session>)
    requires |all| > 2
  {
    var c := new VideosViewController(text, hasVideo);
    c.ViewDidLoad();
    c.SetLoadedSessions(Some(all));
    assert c.mode == ShowingSessions && c.sessions == Some(all);
    var detail := c.SelectionDidChange(2);
    assert detail == Some(all[2]) && c.indexOfLastSelectedRow == 2;
    c.ReloadTablePreservingSelection();
    assert c.reselectedRow == Some(2);
    c.Search("keynote");
    assert c.indexOfLastSelectedRow == -1 && c.reselectedRow == Nil;
    c.Search("");
    assert c.reselectedRow == Nil;
  }
}
