/**
 * The event handlers of the bridge (`struct Manager` and its listeners):
 * the compositor announces toplevels and their changes through the
 * wlr-foreign-toplevel-management-unstable-v1 protocol; each event updates
 * the registry or a window record and is re-announced as a D-Bus signal.
 *
 * A `struct Handler` is represented by the window it wraps: every
 * per-toplevel handler receives that window.
 */
module Manager {
  import opened Common
  import opened WaylandActions
  import opened Windows
  import opened WindowLists
  import opened DBus

  /** Values of `enum zwlr_foreign_toplevel_handle_v1_state`. */
  const STATE_MAXIMIZED: nat := 0
  const STATE_MINIMIZED: nat := 1
  const STATE_ACTIVATED: nat := 2
  const STATE_FULLSCREEN: nat := 3

  /** An entry of a state event that sets the window's `State`. */
  predicate IsStateEntry(e: nat) {
    e == STATE_MAXIMIZED || e == STATE_MINIMIZED || e == STATE_FULLSCREEN
  }

  /** The state one entry leaves; other entries keep `s`. */
  function EntryState(e: nat, s: State): State {
    if e == STATE_MAXIMIZED then Maximized
    else if e == STATE_MINIMIZED then Minimized
    else if e == STATE_FULLSCREEN then Fullscreen
    else s
  }

  /** The signal one entry emits for window `id`; unknown entries emit none. */
  function EntrySignals(e: nat, id: u32): seq<Signal> {
    if e == STATE_MAXIMIZED then [Signal(WindowMaximized, id, None)]
    else if e == STATE_MINIMIZED then [Signal(WindowMinimized, id, None)]
    else if e == STATE_ACTIVATED then [Signal(WindowActivated, id, None)]
    else if e == STATE_FULLSCREEN then [Signal(WindowFullscreened, id, None)]
    else []
  }

  /** The active-window id after one entry. */
  function EntryActive(e: nat, id: u32, a: u32): u32 {
    if e == STATE_ACTIVATED then id else a
  }

  /** The window state after the entries, in array order. */
  function StateAfter(entries: seq<nat>, s: State): State
    decreases |entries|
  {
    if entries == [] then s
    else EntryState(entries[|entries| - 1], StateAfter(entries[..|entries| - 1], s))
  }

  /** The signals emitted for the entries, in array order. */
  function SignalsFor(entries: seq<nat>, id: u32): seq<Signal>
    decreases |entries|
  {
    if entries == [] then []
    else SignalsFor(entries[..|entries| - 1], id) + EntrySignals(entries[|entries| - 1], id)
  }

  /** The active-window id after the entries. */
  function ActiveAfter(entries: seq<nat>, id: u32, a: u32): u32
    decreases |entries|
  {
    if entries == [] then a
    else EntryActive(entries[|entries| - 1], id, ActiveAfter(entries[..|entries| - 1], id, a))
  }

  /** The last maximized, minimized or fullscreen entry decides the state. */
  lemma {:induction false} StateLastEntryWins(entries: seq<nat>, s: State, j: nat)
    requires j < |entries| && IsStateEntry(entries[j])
    requires forall k :: j < k < |entries| ==> !IsStateEntry(entries[k])
    ensures StateAfter(entries, s) == EntryState(entries[j], s)
    decreases |entries|
  {
    var m := |entries| - 1;
    if j < m {
      var prefix := entries[..m];
      assert forall k :: j < k < |prefix| ==> prefix[k] == entries[k];
      StateLastEntryWins(prefix, s, j);
      assert !IsStateEntry(entries[m]);
    }
  }

  /** Without maximized, minimized or fullscreen entries the state is kept; it is never reset to NORMAL. */
  lemma {:induction false} StateKeptWithoutStateEntries(entries: seq<nat>, s: State)
    requires forall k :: 0 <= k < |entries| ==> !IsStateEntry(entries[k])
    ensures StateAfter(entries, s) == s
    decreases |entries|
  {
    if entries != [] {
      var prefix := entries[..|entries| - 1];
      assert forall k :: 0 <= k < |prefix| ==> prefix[k] == entries[k];
      StateKeptWithoutStateEntries(prefix, s);
    }
  }

  /** An activated entry makes this window the active one; otherwise the active window is kept. */
  lemma {:induction false} ActiveAfterActivated(entries: seq<nat>, id: u32, a: u32)
    ensures ActiveAfter(entries, id, a) == (if STATE_ACTIVATED in entries then id else a)
    decreases |entries|
  {
    if entries != [] {
      var prefix := entries[..|entries| - 1];
      ActiveAfterActivated(prefix, id, a);
      assert entries == prefix + [entries[|entries| - 1]];
    }
  }

  /** Every signal of a state event names this window and carries no string; there is at most one per entry. */
  lemma {:induction false} SignalsForWindow(entries: seq<nat>, id: u32)
    ensures |SignalsFor(entries, id)| <= |entries|
    ensures forall q :: q in SignalsFor(entries, id) ==> q.id == id && q.value == None
    decreases |entries|
  {
    if entries != [] {
      SignalsForWindow(entries[..|entries| - 1], id);
    }
  }

  /** Maximized, then minimized, then maximized again: three signals, and the window ends maximized. */
  lemma StateEventExample(id: u32, s: State)
    ensures StateAfter([STATE_MAXIMIZED, STATE_MINIMIZED, STATE_MAXIMIZED], s) == Maximized
    ensures SignalsFor([STATE_MAXIMIZED, STATE_MINIMIZED, STATE_MAXIMIZED], id) ==
              [Signal(WindowMaximized, id, None), Signal(WindowMinimized, id, None), Signal(WindowMaximized, id, None)]
  {
    var e := [STATE_MAXIMIZED, STATE_MINIMIZED, STATE_MAXIMIZED];
    assert e[..2] == [STATE_MAXIMIZED, STATE_MINIMIZED];
    assert e[..2][..1] == [STATE_MAXIMIZED];
    assert e[..2][..1][..0] == [];
    assert SignalsFor([STATE_MAXIMIZED], id) == [Signal(WindowMaximized, id, None)];
    assert SignalsFor(e[..2], id) == [Signal(WindowMaximized, id, None), Signal(WindowMinimized, id, None)];
  }

  class Manager {
    /** The next id to hand out (`manager->count`). */
    var count: u32
    const windowlist: WindowList
    const dbus: Service
    /** The `wl_output` and `wl_seat` bound from the registry, if any. */
    const output: Option<Proxy>
    const seat: Option<Proxy>

    /**
     * The registry is well formed, its ids are ascending and below 2^31, and
     * every registered id was handed out before.
     */
    ghost predicate Valid()
      reads this, windowlist, windowlist.windows
    {
      && windowlist.Valid()
      && Searchable(windowlist.Ids())
      && (forall x :: x in windowlist.Ids() ==> x < count)
      && dbus.windowlist == windowlist
    }

    /** `main`: the counter starts at 0 and the registry empty, then the D-Bus service starts. */
    constructor (env: Option<string>, display: Display, output: Option<Proxy>, seat: Option<Proxy>)
      requires NoNul(DisplayValue(env)) && WalkSafe(DisplayValue(env))
      ensures Valid() && fresh(windowlist) && fresh(windowlist.windows)
      ensures count == 0 && windowlist.Contents == []
      ensures dbus.signals == [] && dbus.display == display && dbus.active.id == 0
      ensures this.output == output && this.seat == seat
    {
      count := 0;
      var list := new WindowList();
      var active := new ActiveWindow();
      windowlist := list;
      dbus := new Service(env, list, display, active);
      this.output := output;
      this.seat := seat;
    }

    /**
     * `top_level_listener_toplevel` with `handler_new`: the new window takes
     * the counter as its id, is appended to the registry and is announced
     * with WindowOpened.
     */
    method OnToplevel(handle: Proxy) returns (w: Window)
      requires Valid() && count < ID_BOUND
      modifies this`count, windowlist, windowlist.windows, dbus`signals
      ensures Valid() && fresh(w)
      ensures w.id == old(count) && count == old(count) + 1
      ensures forall x :: x in old(windowlist.Ids()) ==> x < w.id
      ensures windowlist.Contents == old(windowlist.Contents) + [w]
      ensures w.title == None && w.appId == None && w.state == Normal
      ensures w.actions == Actions(output, seat, handle)
      ensures dbus.signals == old(dbus.signals) + [Signal(WindowOpened, w.id, None)]
    {
      var id := count;
      count := count + 1;
      w := new Window(id, handle, seat);
      w.SetOutput(output);
      ghost var before := windowlist.Ids();
      windowlist.Add(w);
      assert windowlist.Ids() == before + [id];
      assert forall x :: x in windowlist.Ids() ==> x in before || x == id;
      assert Searchable(windowlist.Ids()) by {
        forall i | 0 <= i < |windowlist.Ids()| ensures windowlist.Ids()[i] < ID_BOUND {
          if i < |before| {
            assert before[i] in before;
          }
        }
      }
      dbus.SendSignal(WindowOpened, w.id);
    }

    /** `top_level_handle_listener_title`: stores the title and announces it. */
    method OnTitle(w: Window, title: string)
      modifies w`title, dbus`signals
      ensures w.title == Some(title)
      ensures dbus.signals == old(dbus.signals) + [Signal(WindowTitleChanged, w.id, Some(title))]
    {
      w.SetTitle(title);
      dbus.SendSignalWithValue(WindowTitleChanged, w.id, title);
    }

    /** `top_level_handle_listener_app_id`: stores the app-id and announces it. */
    method OnAppId(w: Window, appId: string)
      modifies w`appId, dbus`signals
      ensures w.appId == Some(appId)
      ensures dbus.signals == old(dbus.signals) + [Signal(WindowAppIdChanged, w.id, Some(appId))]
    {
      w.SetAppId(appId);
      dbus.SendSignalWithValue(WindowAppIdChanged, w.id, appId);
    }

    /** `top_level_handle_listener_output_enter`: the window's output is replaced. */
    method OnOutputEnter(w: Window, output: Proxy)
      modifies w`actions
      ensures w.actions == old(w.actions).(output := Some(output))
    {
      w.SetOutput(Some(output));
    }

    /** `top_level_handle_listener_output_leave`, `_done` and `_parent` only log. */
    method OnIgnored(w: Window)
      ensures unchanged(w) && unchanged(this)
    {
    }

    /**
     * `top_level_handle_listener_state`: the entries are handled in array
     * order; each maximized, minimized or fullscreen entry sets the state and
     * an activated entry makes this the active window, each with its signal.
     */
    method OnState(w: Window, entries: seq<nat>)
      modifies w`state, dbus`signals, dbus.active
      ensures w.state == StateAfter(entries, old(w.state))
      ensures dbus.signals == old(dbus.signals) + SignalsFor(entries, w.id)
      ensures dbus.active.id == ActiveAfter(entries, w.id, old(dbus.active.id))
    {
      var n := 0;
      while n < |entries|
        invariant 0 <= n <= |entries|
        invariant w.state == StateAfter(entries[..n], old(w.state))
        invariant dbus.signals == old(dbus.signals) + SignalsFor(entries[..n], w.id)
        invariant dbus.active.id == ActiveAfter(entries[..n], w.id, old(dbus.active.id))
      {
        var e := entries[n];
        if e == STATE_MAXIMIZED {
          w.SetState(Maximized);
          dbus.SendSignal(WindowMaximized, w.id);
        } else if e == STATE_MINIMIZED {
          w.SetState(Minimized);
          dbus.SendSignal(WindowMinimized, w.id);
        } else if e == STATE_ACTIVATED {
          dbus.active.Set(w.id);
          dbus.SendSignal(WindowActivated, w.id);
        } else if e == STATE_FULLSCREEN {
          w.SetState(Fullscreen);
          dbus.SendSignal(WindowFullscreened, w.id);
        }
        assert entries[..n + 1][..n] == entries[..n];
        n := n + 1;
      }
      assert entries[..n] == entries;
    }

    /**
     * `top_level_handle_listener_closed` with `handler_delete`: WindowClosed
     * is announced, the window leaves the registry and its strings are
     * released. The other registered windows stay, in order.
     */
    method OnClosed(w: Window)
      requires Valid() && windowlist.size > 0
      modifies dbus`signals, windowlist, windowlist.windows, w
      ensures Valid()
      ensures dbus.signals == old(dbus.signals) + [Signal(WindowClosed, w.id, None)]
      ensures windowlist.Contents == RemovedAt(old(windowlist.Contents), IndexOf(old(windowlist.Ids()), w.id))
      ensures w.id !in windowlist.Ids() && windowlist.Find(w.id) == null
      ensures w.title == None && w.appId == None
      ensures w.state == old(w.state) && w.actions == old(w.actions)
    {
      dbus.SendSignal(WindowClosed, w.id);
      windowlist.Remove(w.id);
      w.Clear();
      assert forall x :: x in windowlist.Ids() ==> x in old(windowlist.Ids()) by {
        forall x | x in windowlist.Ids() ensures x in old(windowlist.Ids()) {
          var i :| 0 <= i < |windowlist.Ids()| && windowlist.Ids()[i] == x;
          var k := IndexOf(old(windowlist.Ids()), w.id);
          var j := if k < old(windowlist.size) && i >= k then i + 1 else i;
          assert old(windowlist.Ids())[j] == x;
        }
      }
      assert Searchable(windowlist.Ids()) by {
        forall i | 0 <= i < |windowlist.Ids()| ensures windowlist.Ids()[i] < ID_BOUND {
          assert windowlist.Ids()[i] in windowlist.Ids();
        }
      }
    }

    /** `top_level_listener_finished`: the registry is emptied and its storage released. */
    method OnFinished()
      requires Valid()
      modifies windowlist
      ensures Valid() && windowlist.Contents == [] && windowlist.size == 0 && windowlist.realSize == 0
    {
      windowlist.Clear();
    }
  }
}
