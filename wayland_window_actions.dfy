/**
 * The requests this client may send on a `zwlr_foreign_toplevel_handle_v1`
 * object (wlr-foreign-toplevel-management-unstable-v1 protocol), and the five
 * gating functions that decide whether a request is sent at all.
 *
 * Sending a request is modelled as appending it to the log of the Wayland
 * connection (`Display`).
 */
module WaylandActions {
  import opened Common

  /** Identity of a Wayland proxy object (`wl_output`, `wl_seat`, a toplevel handle). */
  type Proxy = nat

  /** `struct WaylandActions`: what a window needs to issue requests. */
  datatype Actions = Actions(output: Option<Proxy>, seat: Option<Proxy>, handle: Proxy)

  /** The requests of `zwlr_foreign_toplevel_handle_v1` that the bridge uses. */
  datatype Request =
    | SetMaximized(handle: Proxy)
    | UnsetMaximized(handle: Proxy)
    | SetMinimized(handle: Proxy)
    | UnsetMinimized(handle: Proxy)
    | Activate(handle: Proxy, seat: Option<Proxy>)
    | Close(handle: Proxy)
    | SetFullscreen(handle: Proxy, output: Proxy)
    | UnsetFullscreen(handle: Proxy)

  /** Which of the five `wayland_window_action_*` functions is called, with its argument. */
  datatype Call =
    | CloseCall
    | FullscreenCall(value: bool)
    | MaximizedCall(value: bool)
    | MinimizedCall(value: bool)
    | ActiveCall

  /**
   * The requests one gating function sends: every call except activation is
   * suppressed while no output is known; a call sends at most one request, on
   * the window's own handle.
   */
  function Issued(a: Actions, call: Call): (r: seq<Request>)
    ensures |r| <= 1
    ensures call == ActiveCall ==> r == [Activate(a.handle, a.seat)]
    ensures call != ActiveCall ==> (r == [] <==> a.output.None?)
    ensures forall q :: q in r ==> q.handle == a.handle
  {
    match call
    case ActiveCall => [Activate(a.handle, a.seat)]
    case CloseCall =>
      if a.output.None? then [] else [Close(a.handle)]
    case FullscreenCall(value) =>
      if a.output.None? then []
      else if value then [SetFullscreen(a.handle, a.output.value)]
      else [UnsetFullscreen(a.handle)]
    case MaximizedCall(value) =>
      if a.output.None? then []
      else if value then [SetMaximized(a.handle)] else [UnsetMaximized(a.handle)]
    case MinimizedCall(value) =>
      if a.output.None? then []
      else if value then [SetMinimized(a.handle)] else [UnsetMinimized(a.handle)]
  }

  /** Each request set that a `set_*` gating function sends matches its argument. */
  lemma IssuedMatchesValue(a: Actions, value: bool)
    requires a.output.Some?
    ensures Issued(a, FullscreenCall(value)) ==
              [if value then SetFullscreen(a.handle, a.output.value) else UnsetFullscreen(a.handle)]
    ensures Issued(a, MaximizedCall(value)) ==
              [if value then SetMaximized(a.handle) else UnsetMaximized(a.handle)]
    ensures Issued(a, MinimizedCall(value)) ==
              [if value then SetMinimized(a.handle) else UnsetMinimized(a.handle)]
    ensures Issued(a, CloseCall) == [Close(a.handle)]
  {
  }

  /** The Wayland connection: the requests sent on it, and the round trips made. */
  class Display {
    var requests: seq<Request>
    var roundtrips: nat

    constructor ()
      ensures requests == [] && roundtrips == 0
    {
      requests := [];
      roundtrips := 0;
    }

    /** `wl_display_roundtrip`: flush the sent requests and wait for the compositor. */
    method Roundtrip()
      modifies this
      ensures requests == old(requests) && roundtrips == old(roundtrips) + 1
    {
      roundtrips := roundtrips + 1;
    }
  }

  /** `wayland_window_action_close` */
  method ActionClose(a: Actions, display: Display)
    modifies display`requests
    ensures display.requests == old(display.requests) + Issued(a, CloseCall)
  {
    if a.output.Some? {
      display.requests := display.requests + [Close(a.handle)];
    }
  }

  /** `wayland_window_action_set_fullscreen`: the request carries the stored output. */
  method ActionSetFullscreen(a: Actions, value: bool, display: Display)
    modifies display`requests
    ensures display.requests == old(display.requests) + Issued(a, FullscreenCall(value))
  {
    if a.output.Some? {
      if value {
        display.requests := display.requests + [SetFullscreen(a.handle, a.output.value)];
      } else {
        display.requests := display.requests + [UnsetFullscreen(a.handle)];
      }
    }
  }

  /** `wayland_window_action_set_maximized` */
  method ActionSetMaximized(a: Actions, value: bool, display: Display)
    modifies display`requests
    ensures display.requests == old(display.requests) + Issued(a, MaximizedCall(value))
  {
    if a.output.Some? {
      if value {
        display.requests := display.requests + [SetMaximized(a.handle)];
      } else {
        display.requests := display.requests + [UnsetMaximized(a.handle)];
      }
    }
  }

  /** `wayland_window_action_set_minimized` */
  method ActionSetMinimized(a: Actions, value: bool, display: Display)
    modifies display`requests
    ensures display.requests == old(display.requests) + Issued(a, MinimizedCall(value))
  {
    if a.output.Some? {
      if value {
        display.requests := display.requests + [SetMinimized(a.handle)];
      } else {
        display.requests := display.requests + [UnsetMinimized(a.handle)];
      }
    }
  }

  /** `wayland_window_action_set_active`: not gated by the output. */
  method ActionSetActive(a: Actions, display: Display)
    modifies display`requests
    ensures display.requests == old(display.requests) + Issued(a, ActiveCall)
  {
    display.requests := display.requests + [Activate(a.handle, a.seat)];
  }
}
