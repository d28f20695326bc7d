# Session browsing in the WWDC videos list

This project models the session-browsing core of the WWDC app's videos list
(`VideosViewController`) in Dafny. There are three parts:

- **The mode/load state machine.** The controller fetches two collections
  independently: the sessions and the events. `wantedMode` is the collection
  the user asked for through the header's segmented control. `mode` is the
  collection actually shown, or `Loading`. `sessions` holds the collection
  installed for display. In Swift these are linked by property observers.
  Here every observer becomes the body of the setter method for its property
  (`SetMode`, `SetWantedMode`, `SetLoadedSessions`, `SetLoadedEvents`,
  `SetSessions`), on the class `Videos.VideosViewController`. When the `mode`
  observer falls back to `Loading`, Swift does not run the observer again, so
  the model writes that value as a plain field write.
- **The session filter.** This is the `displayedSessions` getter. With a
  non-empty search term, it applies the parsed `year`, `focus`, `track`,
  `downloaded` and free-text (`_query`) qualifiers to the shown collection.
  It keeps the closure's order of checks, including the early return on
  `downloaded`. The filter is pure (`SessionFilter.Filter`, `Keep`,
  `Displayed`). Its one side effect, clearing the selection index, is in the
  `DisplayedSessions` method.
- **The selection index.** `indexOfLastSelectedRow` is set by a selection
  change. The getter clears it whenever a non-empty term is set. A reload
  hands it back to the table view.

Files:

- `catalog.dfy` holds the values. `Option` is Swift's optional, written
  `Nil | Some`. `Session` is a session. `Foundation` bundles the string
  services and the qualifier parser as functions passed in.
- `session_filter.dfy` holds the filter, the getter's value, the row count
  and their lemmas.
- `controller_mode.dfy` holds `ControllerMode` and the rule the `mode`
  observer applies.
- `videos_controller.dfy` holds the controller class. It ends with two client
  methods that follow a fetch, a mode switch, a selection and a search
  through the public operations.

The proved properties:

- `mode` is never `Error` and `wantedMode` is always a showing mode
  (`Valid`). A showing mode shows exactly its own collection.
- A fetch completion, including a failed one that delivers nil, reassigns
  `mode` from `wantedMode`. So a request made while loading is honoured on
  the next completion.
- While the mode is `Loading` or `None`, a new wanted mode leaves everything
  else unchanged.
- `switchMode` ignores every index but 0 and 1.
- With no term or an empty term, the displayed list is `sessions`. Otherwise
  it is an order-preserving subsequence of `sessions` whose elements are
  exactly the kept sessions, with their multiplicities.
- A non-integer `year` shows nothing.
- With `downloaded`, the free text is ignored, and a session without a URL is
  never shown.
- A reload made while a term filters never reselects a row.

Behaviour of the code worth knowing, all of it modelled as written:

- **Selection.** The getter clears the index on every evaluation with a
  non-empty term, whether or not the term changed. With no term, a reload
  reselects the stored index without comparing it to the row count.
- **Selecting a row while a term is set.** `tableViewSelectionDidChange`
  reads `displayedSessions` right after storing the row. With a non-empty
  term, that read clears the index again, so the recorded index is -1
  (`SelectionDidChange`).
- **Download URL.** `downloaded:` only tests that `hd_url` is present; an
  empty URL string is passed to `hasVideo` like any other.
- **Starting state.** `mode` starts as `None`, and `viewDidLoad` sets
  `Loading` before the fetches start. A wanted mode set while the mode is
  `None` leaves it at `None`.
- **Progress indicator.** The fallback to `Loading` inside the `mode`
  observer is a plain write, so it does not start the indicator (`SetMode`,
  ghost field `animating`). Only an assignment of `Loading` from outside the
  observer starts it.

## Model

| member | source | states |
|---|---|---|
| `SessionFilter.Keep` | WWDC/VideosViewController.swift:243-289 | the closure keeps a session iff year, focus, track and downloaded qualifiers all admit it, and, only when no `downloaded` qualifier is present, the free text occurs in its folded title |
| `SessionFilter.Filter` | WWDC/VideosViewController.swift:243-289 | the filtered list is a subsequence of the collection in which every element is kept by the closure |
| `SessionFilter.FilterMembers` | WWDC/VideosViewController.swift:243-289 | a session appears in the filtered list iff it is in the collection and the closure keeps it |
| `SessionFilter.FilterCounts` | WWDC/VideosViewController.swift:243-289 | every copy of a kept session stays and every copy of a rejected one goes (multiset count) |
| `SessionFilter.FilterAppend` | WWDC/VideosViewController.swift:243-289 | filtering distributes over concatenation, so kept sessions stay in collection order |
| `SessionFilter.NoQualifiersShowsAll` | WWDC/VideosViewController.swift:243-289 | a term that parses to no qualifier and empty free text shows the whole collection |
| `SessionFilter.Displayed` | WWDC/VideosViewController.swift:236-297 | with a nil or empty term the displayed list is `sessions`; with a non-empty term it is present and an order-preserving subsequence of `sessions` |
| `SessionFilter.DisplayedFromSessions` | WWDC/VideosViewController.swift:236-297 | every session the getter returns is a session of the shown collection |
| `SessionFilter.RowCountBound` | WWDC/VideosViewController.swift:117-123 | the row count is at most the size of the shown collection, and equal to it when no term filters |
| `SessionFilter.NonIntegerYearShowsNothing` | WWDC/VideosViewController.swift:245-249 | a `year` value that does not parse as an integer leaves the list empty |
| `SessionFilter.FocusNormalization` | WWDC/VideosViewController.swift:251-262 | "osx"/"os x" in any case look for "OS X", "ios" for "iOS", any other focus value is looked up verbatim |
| `SessionFilter.DownloadedNeedsUrl` | WWDC/VideosViewController.swift:270-276 | with `downloaded`, every shown session has a URL whose `hasVideo` answer equals the qualifier's boolean value |
| `SessionFilter.DownloadedIgnoresQuery` | WWDC/VideosViewController.swift:270-286 | with `downloaded`, removing the free text from the qualifiers does not change the list (the early return skips it) |
| `ControllerMode.Resolve` | WWDC/VideosViewController.swift:188-211 | assigning a mode yields that mode or `Loading`; a showing mode survives iff its collection is loaded; `Error` arises only from assigning `Error` |
| `ControllerMode.ArrivalResolves` | WWDC/VideosViewController.swift:78-87 | once the wanted collection has arrived, resolving the wanted mode shows it |
| `ControllerMode.ResolveIdempotent` | WWDC/VideosViewController.swift:188-211 | the `Loading` fallback is settled: resolving it again changes nothing |
| `ControllerMode.RequestedMode` | WWDC/VideosViewController.swift:213-222 | index 0 requests sessions, 1 requests events, every other index requests nothing |
| `Videos.VideosViewController.constructor` | WWDC/VideosViewController.swift:181-188 | the mode starts as `None`, the wanted mode as `ShowingSessions`, the index as -1, nothing loaded |
| `Videos.VideosViewController.ViewDidLoad` | WWDC/VideosViewController.swift:29-48 | the mode becomes `Loading` and the indicator spins |
| `Videos.VideosViewController.SetMode` | WWDC/VideosViewController.swift:188-211 | the new mode is the resolved one; a showing mode installs its collection into `sessions`, stops the indicator and reloads; the fallback to `Loading` changes nothing else |
| `Videos.VideosViewController.SetSessions` | WWDC/VideosViewController.swift:68-76 | installing a collection stops the indicator and reloads the table |
| `Videos.VideosViewController.SetLoadedSessions` | WWDC/VideosViewController.swift:78-82 | a sessions fetch completion, nil or not, reassigns the mode from `wantedMode` and keeps the invariant |
| `Videos.VideosViewController.SetLoadedEvents` | WWDC/VideosViewController.swift:83-87 | an events fetch completion, nil or not, reassigns the mode from `wantedMode` and keeps the invariant |
| `Videos.VideosViewController.SetWantedMode` | WWDC/VideosViewController.swift:181-187 | while `Loading`, `Error` or `None` the mode and the table stay as they were; otherwise the mode follows the wanted mode |
| `Videos.VideosViewController.SwitchMode` | WWDC/VideosViewController.swift:213-222 | 0 and 1 set the wanted mode; while `Loading` or `None` nothing else changes, otherwise the state is that of assigning the wanted mode (resolved mode, installed collection, reloaded table); any other index leaves the whole state unchanged |
| `Videos.VideosViewController.DisplayedSessions` | WWDC/VideosViewController.swift:236-297 | the getter returns the displayed list and clears the index exactly when a non-empty term is set |
| `Videos.VideosViewController.NumberOfRowsInTableView` | WWDC/VideosViewController.swift:117-123 | the row count is the displayed list's length, 0 when it is nil, never more than the shown collection |
| `Videos.VideosViewController.ReloadTablePreservingSelection` | WWDC/VideosViewController.swift:109-115 | after a reload the table has the displayed row count and is asked to reselect the index only if it is still above -1, so never while a term filters |
| `Videos.VideosViewController.Search` | WWDC/VideosViewController.swift:226-234 | the term is stored and the table reloaded; a non-empty term always clears the selection |
| `Videos.VideosViewController.VideoStoreChanged` | WWDC/VideosViewController.swift:41-47 | a change in the video store reloads the table with the new download state |
| `Videos.VideosViewController.SelectionDidChange` | WWDC/VideosViewController.swift:166-179 | a row at or above 0 is recorded (then cleared if a term filters) and its session is handed on; no selection hands on nil and keeps the index |

## Left out

- Interface plumbing is not modelled: outlets, the scroll view and header
  layout, cell configuration, row height, `headerController.enable()` and the
  progress indicator itself. The indicator's state is kept only as the ghost
  field `animating`.
- The notification-center observers and the main-queue hops are not
  modelled. A fetch completion is a call to `SetLoadedSessions` or
  `SetLoadedEvents`. A progress notification is a call to
  `ReloadTablePreservingSelection`. A finished download is a call to
  `VideoStoreChanged`.
- The data store and the video store are shared singletons. Fetching is left
  out. `hasVideo` is a function-valued field that `VideoStoreChanged`
  replaces. `fetchSessionProgress` only feeds cell drawing and is left out.
- The qualifier parser is defined in a file that is not part of this model.
  Its result is taken as given: `Foundation.parseQualifiers`, whose keys are
  the qualifier names plus `_query`.
- Foundation's `toInt`, `boolValue` and `lowercaseString` are abstract
  functions, and so is the case- and diacritic-insensitive comparison of
  `rangeOfString`. The free-text test is substring containment over that
  abstract fold.
- The details view controller lookup and the navigation it drives are left
  out. `SelectionDidChange` returns the session it would hand over.
- The table view's own selection behaviour is not modelled: what
  `reloadData` or an out-of-range `selectRowIndexes` does to the selection,
  and whether a programmatic selection posts a selection-change
  notification. The model records only the row that a reload asks the table
  view to select.
- `ReloadTablePreservingSelection` assumes that `tableView.reloadData()` asks
  the data source for the row count before it returns, so the getter has
  already cleared the index when the `> -1` test runs. The guarantee that a
  reload under a non-empty term never reselects a row rests on that
  assumption about the table view.
- `Search` requires either an installed collection or an empty term. With a non-empty term and no collection, the getter unwraps a nil
  implicitly-unwrapped array and traps. The search field is only enabled
  once a collection has been installed.
- `SelectionDidChange` requires the row to exist in the displayed list. The
  table view only reports rows it shows, and the code indexes the list
  without a check.
