/** `ControllerMode` and the rule the `mode` observer applies when a mode is
    assigned: a showing mode needs its collection, otherwise the field falls
    back to `Loading`. */
module ControllerMode {
  import opened Catalog

  datatype Mode = None | Loading | ShowingSessions | ShowingEvents | Error

  predicate IsShowing(m: Mode)
  {
    m.ShowingSessions? || m.ShowingEvents?
  }

  /** The collection a mode shows: the loaded sessions for `ShowingSessions`,
      the loaded events for `ShowingEvents`, nothing for the other modes. */
  function DataFor(m: Mode, loadedSessions: Option<seq<Session>>, loadedEvents: Option<seq<Session>>): Option<seq<Session>>
  {
    match m
    case ShowingSessions => loadedSessions
    case ShowingEvents => loadedEvents
    case _ => Nil
  }

  /** The value `mode` holds once its observer has run after `mode = m`. */
  function Resolve(m: Mode, loadedSessions: Option<seq<Session>>, loadedEvents: Option<seq<Session>>): (r: Mode)
    ensures r == m || r == Loading
    ensures r.ShowingSessions? <==> m.ShowingSessions? && loadedSessions.Some?
    ensures r.ShowingEvents? <==> m.ShowingEvents? && loadedEvents.Some?
    ensures r.Error? <==> m.Error?
    ensures IsShowing(r) ==> DataFor(r, loadedSessions, loadedEvents).Some?
  {
    if IsShowing(m) && DataFor(m, loadedSessions, loadedEvents).Nil? then Loading else m
  }

  /** The mode `switchMode` asks for: segment 0 is sessions, 1 is events, any
      other index asks for nothing. */
  function RequestedMode(index: int): (r: Option<Mode>)
    ensures r.Some? <==> index == 0 || index == 1
    ensures r.Some? ==> IsShowing(r.value)
    ensures r == Some(ShowingSessions) <==> index == 0
  {
    if index == 0 then Some(ShowingSessions)
    else if index == 1 then Some(ShowingEvents)
    else Nil
  }

  /** Once the collection a wanted mode needs has arrived, resolving that mode
      shows it, whatever the other collection holds. */
  lemma ArrivalResolves(wanted: Mode, loadedSessions: Option<seq<Session>>, loadedEvents: Option<seq<Session>>)
    requires IsShowing(wanted) && DataFor(wanted, loadedSessions, loadedEvents).Some?
    ensures Resolve(wanted, loadedSessions, loadedEvents) == wanted
  {
  }

  /** Resolving twice gives what resolving once gives: the fallback mode is
      already settled. */
  lemma ResolveIdempotent(m: Mode, loadedSessions: Option<seq<Session>>, loadedEvents: Option<seq<Session>>)
    ensures Resolve(Resolve(m, loadedSessions, loadedEvents), loadedSessions, loadedEvents) == Resolve(m, loadedSessions, loadedEvents)
  {
  }
}
