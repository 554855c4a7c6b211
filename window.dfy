/**
 * One tracked toplevel (`struct Window`) and the process-wide id of the
 * active window.
 *
 * The "send" operations ask the compositor for a change through the gating
 * functions of WaylandActions and then rewrite the local state at once,
 * before the compositor confirms anything.
 */
module Windows {
  import opened Common
  import opened WaylandActions

  /** `enum State` */
  datatype State = Normal | Maximized | Minimized | Fullscreen

  class Window {
    /** Written only at initialisation, so it never changes afterwards. */
    const id: u32
    var title: Option<string>
    var appId: Option<string>
    var state: State
    var actions: Actions

    /** `window_init` */
    constructor (id: u32, handle: Proxy, seat: Option<Proxy>)
      ensures this.id == id
      ensures title == None && appId == None && state == Normal
      ensures actions == Actions(None, seat, handle)
    {
      this.id := id;
      title := None;
      appId := None;
      state := Normal;
      actions := Actions(None, seat, handle);
    }

    /** `window_clear`: releases the title and the app-id. */
    method Clear()
      modifies this
      ensures title == None && appId == None
      ensures state == old(state) && actions == old(actions)
    {
      title := None;
      appId := None;
    }

    /** `window_set_title` */
    method SetTitle(t: string)
      modifies this`title
      ensures title == Some(t)
    {
      title := Some(t);
    }

    /** `window_set_app_id` */
    method SetAppId(a: string)
      modifies this`appId
      ensures appId == Some(a)
    {
      appId := Some(a);
    }

    /** `window_set_state` */
    method SetState(s: State)
      modifies this`state
      ensures state == s
    {
      state := s;
    }

    /** `window_set_output` */
    method SetOutput(output: Option<Proxy>)
      modifies this`actions
      ensures actions == old(actions).(output := output)
    {
      actions := actions.(output := output);
    }

    /** `window_send_set_fullscreen` */
    method SendSetFullscreen(value: bool, display: Display)
      modifies this`state, display`requests
      ensures state == SentState(FullscreenCall(value), old(state))
      ensures display.requests == old(display.requests) + Issued(actions, FullscreenCall(value))
    {
      ActionSetFullscreen(actions, value, display);
      state := if value then Fullscreen else Normal;
    }

    /** `window_send_set_maximized` */
    method SendSetMaximized(value: bool, display: Display)
      modifies this`state, display`requests
      ensures state == SentState(MaximizedCall(value), old(state))
      ensures display.requests == old(display.requests) + Issued(actions, MaximizedCall(value))
    {
      ActionSetMaximized(actions, value, display);
      state := if value then Maximized else Normal;
    }

    /** `window_send_set_minimized` */
    method SendSetMinimized(value: bool, display: Display)
      modifies this`state, display`requests
      ensures state == SentState(MinimizedCall(value), old(state))
      ensures display.requests == old(display.requests) + Issued(actions, MinimizedCall(value))
    {
      ActionSetMinimized(actions, value, display);
      state := if value then Minimized else Normal;
    }

    /** `window_send_set_active`: a minimized window is taken to be restored. */
    method SendSetActive(display: Display)
      modifies this`state, display`requests
      ensures state == SentState(ActiveCall, old(state))
      ensures display.requests == old(display.requests) + Issued(actions, ActiveCall)
    {
      ActionSetActive(actions, display);
      state := if state == Minimized then Normal else state;
    }

    /** `window_send_close`: the record itself is left alone. */
    method SendClose(display: Display)
      modifies display`requests
      ensures display.requests == old(display.requests) + Issued(actions, CloseCall)
    {
      ActionClose(actions, display);
    }
  }

  /** The state a `send` operation leaves behind, whatever the compositor does. */
  function SentState(call: Call, s: State): (r: State)
    ensures call == FullscreenCall(true) ==> r == Fullscreen
    ensures call == MaximizedCall(true) ==> r == Maximized
    ensures call == MinimizedCall(true) ==> r == Minimized
    ensures (call.FullscreenCall? || call.MaximizedCall? || call.MinimizedCall?) && !call.value ==> r == Normal
    ensures call == ActiveCall ==> r != Minimized && (s != Minimized ==> r == s)
    ensures call == CloseCall ==> r == s
  {
    match call
    case FullscreenCall(v) => if v then Fullscreen else Normal
    case MaximizedCall(v) => if v then Maximized else Normal
    case MinimizedCall(v) => if v then Minimized else Normal
    case ActiveCall => if s == Minimized then Normal else s
    case CloseCall => s
  }

  /**
   * The `static uint32_t active_window` of window.c, kept in an object of
   * its own. It starts at 0 and is written only by the setter.
   */
  class ActiveWindow {
    var id: u32

    constructor ()
      ensures id == 0
    {
      id := 0;
    }

    /** `window_get_active_window` */
    method Get() returns (r: u32)
      ensures r == id
    {
      r := id;
    }

    /** `window_set_active_window` */
    method Set(x: u32)
      modifies this
      ensures id == x
    {
      id := x;
    }
  }
}
