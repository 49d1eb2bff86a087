/** The on/off control of the push listener (`maybe_start_ws_server`,
    `maybe_stop_ws_server` and the mode rule of `on_mode_change`), as the
    three flags the source keeps: whether the server is serving, whether a
    server thread is recorded, and whether a stop has been signalled. */
module Listener {

  datatype ListenerState = ListenerState(running: bool, hasThread: bool, stopRequested: bool)
  {
    /** A serving listener has its thread and no pending stop. */
    predicate Valid() {
      running ==> hasThread && !stopRequested
    }
  }

  /** The flags at start-up. */
  const Stopped: ListenerState := ListenerState(false, false, false)

  /** The modes that show pushed data and so want the listener. */
  predicate WantsListener(mode: string) {
    mode == "full" || mode == "media"
  }

  /** `maybe_start_ws_server`: when not serving, clear the stop signal and
      start a server thread, which serves when it can bind its port
      (`bindOk`) and otherwise exits again at once. */
  function Start(s: ListenerState, bindOk: bool): (r: ListenerState)
    ensures s.running ==> r == s
    ensures !s.running ==> r.hasThread && !r.stopRequested && r.running == bindOk
    ensures s.Valid() ==> r.Valid()
  {
    if s.running then s else ListenerState(bindOk, true, false)
  }

  /** `maybe_stop_ws_server`: when serving, signal the stop, wait for the
      thread and forget it; the accept loop sees the signal within a second,
      inside the five-second join, and clears the serving flag. */
  function Stop(s: ListenerState): (r: ListenerState)
    ensures !r.running
    ensures !s.running ==> r == s
    ensures s.running ==> !r.hasThread && r.stopRequested
    ensures s.Valid() ==> r.Valid()
  {
    if s.running then ListenerState(false, false, true) else s
  }

  /** The listener part of `on_mode_change`. */
  function OnModeChange(s: ListenerState, mode: string, bindOk: bool): (r: ListenerState)
    ensures r.running ==> WantsListener(mode)
    ensures s.Valid() ==> r.Valid()
  {
    if WantsListener(mode) then Start(s, bindOk) else Stop(s)
  }

  /** Starting a serving listener, or stopping a stopped one, does nothing;
      so both are idempotent once they took effect. */
  lemma StartStopIdempotent(s: ListenerState, bindOk: bool, bindOk': bool)
    ensures Start(s, bindOk).running ==> Start(Start(s, bindOk), bindOk') == Start(s, bindOk)
    ensures Stop(Stop(s)) == Stop(s)
  {
  }

  /** After a mode change the listener serves exactly when the mode wants it
      and it was serving already or could bind; a stopped listener can
      always be started again. */
  lemma ModeChangeRunning(s: ListenerState, mode: string, bindOk: bool)
    ensures OnModeChange(s, mode, bindOk).running <==> WantsListener(mode) && (s.running || bindOk)
    ensures OnModeChange(s, mode, bindOk).Valid() || !s.Valid()
    ensures Start(Stop(s), true).running
  {
  }

  /** The flags object. */
  class ListenerControl {
    var running: bool
    var hasThread: bool
    var stopRequested: bool

    function View(): ListenerState
      reads this
    {
      ListenerState(running, hasThread, stopRequested)
    }

    constructor ()
      ensures View() == Stopped
    {
      running, hasThread, stopRequested := false, false, false;
    }

    method MaybeStart(bindOk: bool)
      modifies this
      ensures View() == Start(old(View()), bindOk)
    {
      if !running {
        stopRequested := false;
        hasThread := true;
        running := bindOk;
      }
    }

    method MaybeStop()
      modifies this
      ensures View() == Stop(old(View()))
    {
      if running {
        stopRequested := true;
        hasThread := false;
        running := false;
      }
    }
  }
}
