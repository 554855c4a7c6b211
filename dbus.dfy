/**
 * The D-Bus face of the bridge (`struct DBus`): the derivation of the
 * interface name from `WAYLAND_DISPLAY`, the signals emitted to listeners,
 * and the method callbacks of the `/WindowsList` object.
 *
 * Signals and replies are values: an emitted signal is appended to a log, and
 * a method callback returns what it hands to `sd_bus_reply_method_return`.
 * A NULL string reply is `None`.
 */
module DBus {
  import opened Common
  import opened WaylandActions
  import opened Windows
  import opened WindowLists

  const PREFIX: string := "lxqt.WindowsList."
  /** Used in place of an unset `WAYLAND_DISPLAY`. */
  const DEFAULT_DISPLAY: string := "wayland"
  const OBJECT_PATH: string := "/WindowsList"

  // ---------------------------------------------------------------------
  // Interface name
  // ---------------------------------------------------------------------

  /** A C string: no character is the terminator. */
  predicate NoNul(s: string) {
    '\0' !in s
  }

  /** Some `-` is immediately followed by another `-`. */
  predicate HasDoubleHyphen(s: string) {
    exists i :: 0 <= i < |s| - 1 && s[i] == '-' && s[i + 1] == '-'
  }

  /**
   * The compaction loop of `get_dbus_interface_name` stays inside the buffer:
   * every `-` it skips is followed by a character it can copy, so a run of
   * hyphens at the very end must have even length.
   */
  predicate WalkSafe(s: string)
    decreases |s|
  {
    if s == [] then true
    else if s[0] == '-' then |s| >= 2 && WalkSafe(s[2..])
    else WalkSafe(s[1..])
  }

  /**
   * What the compaction loop leaves: a `-` is skipped and the character
   * after it is copied whatever it is, so of two adjacent hyphens the second
   * survives.
   */
  function Compact(s: string): (r: string)
    requires WalkSafe(s)
    ensures |r| <= |s|
    decreases |s|
  {
    if s == [] then []
    else if s[0] == '-' then [s[1]] + Compact(s[2..])
    else [s[0]] + Compact(s[1..])
  }

  /** `n` hyphens. */
  function Hyphens(n: nat): (r: string)
    ensures |r| == n
  {
    if n == 0 then [] else ['-'] + Hyphens(n - 1)
  }

  /** A prefix without hyphens passes through the loop unchanged, and the loop then continues on the rest. */
  lemma {:induction false} CompactAppend(a: string, b: string)
    requires '-' !in a
    ensures WalkSafe(a + b) <==> WalkSafe(b)
    ensures WalkSafe(b) ==> Compact(a + b) == a + Compact(b)
  {
    if a == [] {
      assert a + b == b;
    } else {
      var s := a + b;
      assert s[0] == a[0] && a[0] in a;
      assert s[1..] == a[1..] + b;
      assert WalkSafe(s) == WalkSafe(s[1..]);
      CompactAppend(a[1..], b);
      if WalkSafe(b) {
        calc {
          Compact(s);
          [a[0]] + Compact(a[1..] + b);
          [a[0]] + (a[1..] + Compact(b));
          a + Compact(b);
        }
      }
    }
  }

  /** Two leading hyphens: the first is skipped and the second copied. */
  lemma CompactDoubleHyphen(u: string)
    ensures WalkSafe(['-', '-'] + u) == WalkSafe(u)
    ensures WalkSafe(u) ==> Compact(['-', '-'] + u) == ['-'] + Compact(u)
  {
    var s := ['-', '-'] + u;
    assert s[2..] == u;
  }

  /** A lone hyphen: it is skipped and the character after it copied. */
  lemma CompactHyphenBefore(c: char, u: string)
    requires c != '-'
    ensures WalkSafe(['-', c] + u) == WalkSafe(u)
    ensures WalkSafe(u) ==> Compact(['-', c] + u) == [c] + Compact(u)
  {
    var s := ['-', c] + u;
    assert s[2..] == u;
  }

  /** Peeling two hyphens off a run. */
  lemma HyphensSplit(k: nat, t: string)
    requires k >= 2
    ensures Hyphens(k) + t == ['-', '-'] + (Hyphens(k - 2) + t)
    ensures Hyphens(k / 2) == ['-'] + Hyphens((k - 2) / 2)
  {
    assert Hyphens(k) == ['-', '-'] + Hyphens(k - 2);
  }

  /** Two more hyphens in front of a run add one hyphen to what the loop keeps. */
  lemma CompactRunStep(k: nat, t: string)
    requires k >= 2 && WalkSafe(Hyphens(k - 2) + t) && WalkSafe(t)
    requires Compact(Hyphens(k - 2) + t) == Hyphens((k - 2) / 2) + Compact(t)
    ensures WalkSafe(Hyphens(k) + t)
    ensures Compact(Hyphens(k) + t) == Hyphens(k / 2) + Compact(t)
  {
    var u := Hyphens(k - 2) + t;
    var h := Hyphens((k - 2) / 2);
    var c := Compact(t);
    HyphensSplit(k, t);
    CompactDoubleHyphen(u);
    assert Compact(u) == h + c;
    assert Compact(Hyphens(k) + t) == ['-'] + (h + c);
    assert ['-'] + (h + c) == (['-'] + h) + c;
  }

  /**
   * A maximal run of `k` hyphens before another character keeps `k / 2` of
   * them, and the loop goes on from that character.
   */
  lemma {:induction false} CompactRunBefore(k: nat, t: string)
    requires t != [] && t[0] != '-' && WalkSafe(t)
    ensures WalkSafe(Hyphens(k) + t)
    ensures Compact(Hyphens(k) + t) == Hyphens(k / 2) + Compact(t)
    decreases k
  {
    if k == 0 {
      assert Hyphens(k) + t == t;
    } else if k == 1 {
      assert Hyphens(k) + t == ['-', t[0]] + t[1..];
      CompactHyphenBefore(t[0], t[1..]);
    } else {
      CompactRunBefore(k - 2, t);
      CompactRunStep(k, t);
    }
  }

  /**
   * A run of `k` hyphens at the end can be walked only when `k` is even, and
   * it then keeps `k / 2` of them.
   */
  lemma {:induction false} CompactRunAtEnd(k: nat)
    ensures WalkSafe(Hyphens(k)) <==> k % 2 == 0
    ensures k % 2 == 0 ==> Compact(Hyphens(k)) == Hyphens(k / 2)
    decreases k
  {
    if k == 1 {
      assert Hyphens(1) == ['-'];
    } else if k >= 2 {
      CompactRunAtEnd(k - 2);
      HyphensSplit(k, []);
      assert Hyphens(k) + [] == Hyphens(k) && Hyphens(k - 2) + [] == Hyphens(k - 2);
      CompactDoubleHyphen(Hyphens(k - 2));
    }
  }

  /** Without doubled hyphens the loop deletes every hyphen. */
  lemma {:induction false} CompactWithoutDoubles(s: string)
    requires WalkSafe(s) && !HasDoubleHyphen(s)
    ensures Compact(s) == RemoveHyphens(s)
    decreases |s|
  {
    if s == [] {
    } else if s[0] == '-' {
      assert s[1] != '-';
      assert !HasDoubleHyphen(s[2..]) by {
        forall i | 0 <= i < |s[2..]| - 1 ensures !(s[2..][i] == '-' && s[2..][i + 1] == '-') {
          assert s[2..][i] == s[i + 2] && s[2..][i + 1] == s[i + 3];
        }
      }
      CompactWithoutDoubles(s[2..]);
      assert s[1..][1..] == s[2..];
      assert RemoveHyphens(s) == RemoveHyphens(s[1..]);
    } else {
      assert !HasDoubleHyphen(s[1..]) by {
        forall i | 0 <= i < |s[1..]| - 1 ensures !(s[1..][i] == '-' && s[1..][i + 1] == '-') {
          assert s[1..][i] == s[i + 1] && s[1..][i + 1] == s[i + 2];
        }
      }
      CompactWithoutDoubles(s[1..]);
    }
  }

  /** With a doubled hyphen somewhere, a hyphen survives the loop. */
  lemma {:induction false} CompactKeepsDoubles(s: string)
    requires WalkSafe(s) && HasDoubleHyphen(s)
    ensures '-' in Compact(s)
    decreases |s|
  {
    var i :| 0 <= i < |s| - 1 && s[i] == '-' && s[i + 1] == '-';
    if s[0] == '-' && s[1] == '-' {
      assert Compact(s)[0] == '-';
    } else if s[0] == '-' {
      assert i >= 2;
      assert s[2..][i - 2] == '-' && s[2..][i - 1] == '-';
      CompactKeepsDoubles(s[2..]);
      assert Compact(s) == [s[1]] + Compact(s[2..]);
    } else {
      assert i >= 1;
      assert s[1..][i - 1] == '-' && s[1..][i] == '-';
      CompactKeepsDoubles(s[1..]);
      assert Compact(s) == [s[0]] + Compact(s[1..]);
    }
  }

  /** The loop deletes every hyphen exactly when no hyphen is doubled. */
  lemma CompactRemovesAllIff(s: string)
    requires WalkSafe(s)
    ensures Compact(s) == RemoveHyphens(s) <==> !HasDoubleHyphen(s)
  {
    if HasDoubleHyphen(s) {
      CompactKeepsDoubles(s);
      RemoveHyphensClean(s);
    } else {
      CompactWithoutDoubles(s);
    }
  }

  /** The environment value the name is built from. */
  function DisplayValue(env: Option<string>): (v: string)
    ensures env.None? ==> v == DEFAULT_DISPLAY
    ensures env.Some? ==> v == env.value
  {
    env.GetOr(DEFAULT_DISPLAY)
  }

  /** `get_dbus_interface_name` as written, on its result. */
  function ServerInterfaceName(env: Option<string>): (name: string)
    requires WalkSafe(DisplayValue(env))
    ensures name == PREFIX + Compact(DisplayValue(env))
  {
    CompactAppend(PREFIX, DisplayValue(env));
    Compact(PREFIX + DisplayValue(env))
  }

  /** With `WAYLAND_DISPLAY` unset the name is the prefix followed by `wayland`. */
  lemma ServerNameDefault()
    ensures ServerInterfaceName(None) == PREFIX + DEFAULT_DISPLAY
  {
    CompactAppend(PREFIX + DEFAULT_DISPLAY, []);
    assert PREFIX + DEFAULT_DISPLAY + [] == PREFIX + DEFAULT_DISPLAY;
    CompactAppend(PREFIX, DEFAULT_DISPLAY);
  }

  /** The prefix holds neither a hyphen nor a terminator. */
  lemma PrefixPlain()
    ensures '-' !in PREFIX && NoNul(PREFIX)
  {
  }

  /**
   * `get_dbus_interface_name`: the prefix and the display name are written
   * into a fresh NUL-terminated buffer, which is then compacted in place.
   */
  method GetInterfaceName(env: Option<string>) returns (name: string)
    requires NoNul(DisplayValue(env)) && WalkSafe(DisplayValue(env))
    ensures name == ServerInterfaceName(env)
  {
    PrefixPlain();
    var text := PREFIX + DisplayValue(env);
    CompactAppend(PREFIX, DisplayValue(env));
    var buffer := new char[|text| + 1](i requires 0 <= i <= |text| => if i < |text| then text[i] else '\0');
    var n := CompactHyphens(buffer, text);
    name := buffer[..n];
  }

  /**
   * The compaction loop of `get_dbus_interface_name`: a reading and a writing
   * pointer walk the NUL-terminated buffer; at a `-` the reading pointer
   * steps over it and the character after it is copied.
   */
  method CompactHyphens(buffer: array<char>, ghost text: string) returns (n: nat)
    requires buffer.Length == |text| + 1 && NoNul(text) && WalkSafe(text)
    requires forall i :: 0 <= i < |text| ==> buffer[i] == text[i]
    requires buffer[|text|] == '\0'
    modifies buffer
    ensures n <= |text| && buffer[..n] == Compact(text) && buffer[n] == '\0'
  {
    ghost var whole := Compact(text);
    var p1, p2 := 0, 0;
    assert text[p1..] == text;
    while buffer[p1] != '\0'
      invariant 0 <= p2 <= p1 <= |text|
      invariant forall i :: p1 <= i < |text| ==> buffer[i] == text[i] && text[i] != '\0'
      invariant buffer[|text|] == '\0'
      invariant WalkSafe(text[p1..])
      invariant buffer[..p2] + Compact(text[p1..]) == whole
      decreases |text| - p1
    {
      ghost var done := buffer[..p2];
      CompactAdvance(text, p1, done, whole);
      if buffer[p1] == '-' {
        p1 := p1 + 1;
      }
      buffer[p2] := buffer[p1];
      assert buffer[..p2 + 1] == done + [text[p1]];
      p1 := p1 + 1;
      p2 := p2 + 1;
    }
    assert text[p1..] == [];
    buffer[p2] := '\0';
    n := p2;
  }

  /**
   * One step of the compaction loop: from position `p` the next character
   * written is the one at `p`, or the one after it when `p` holds a `-`.
   */
  lemma CompactAdvance(text: string, p: nat, done: string, whole: string)
    requires p < |text| && WalkSafe(text[p..])
    requires done + Compact(text[p..]) == whole
    ensures text[p] == '-' ==>
              && p + 1 < |text| && WalkSafe(text[p + 2..])
              && (done + [text[p + 1]]) + Compact(text[p + 2..]) == whole
    ensures text[p] != '-' ==>
              && WalkSafe(text[p + 1..])
              && (done + [text[p]]) + Compact(text[p + 1..]) == whole
  {
    var t := text[p..];
    CompactUnfold(t);
    if text[p] == '-' {
      assert t[1] == text[p + 1] && t[2..] == text[p + 2..];
      var rest := Compact(text[p + 2..]);
      assert done + ([text[p + 1]] + rest) == (done + [text[p + 1]]) + rest;
    } else {
      assert t[1..] == text[p + 1..];
      var rest := Compact(text[p + 1..]);
      assert done + ([text[p]] + rest) == (done + [text[p]]) + rest;
    }
  }

  /** One step of `Compact` on a non-empty text. */
  lemma CompactUnfold(t: string)
    requires t != [] && WalkSafe(t)
    ensures t[0] == '-' ==> |t| >= 2 && WalkSafe(t[2..]) && Compact(t) == [t[1]] + Compact(t[2..])
    ensures t[0] != '-' ==> WalkSafe(t[1..]) && Compact(t) == [t[0]] + Compact(t[1..])
  {
  }

  /**
   * The intended compaction: every `-` is skipped and nothing else, so the
   * loop cannot run past the terminator.
   */
  method GetInterfaceNameFixed(env: Option<string>) returns (name: string)
    requires NoNul(DisplayValue(env))
    ensures name == PREFIX + RemoveHyphens(DisplayValue(env))
    ensures '-' !in name
  {
    PrefixPlain();
    var text := PREFIX + DisplayValue(env);
    var buffer := new char[|text| + 1](i requires 0 <= i <= |text| => if i < |text| then text[i] else '\0');
    var n := DropHyphens(buffer, text);
    name := buffer[..n];
    RemoveHyphensAppend(PREFIX, DisplayValue(env));
    RemoveHyphensClean(PREFIX);
    RemoveHyphensClean(text);
  }

  /** The intended loop: the writing pointer advances only past characters it keeps. */
  method DropHyphens(buffer: array<char>, ghost text: string) returns (n: nat)
    requires buffer.Length == |text| + 1 && NoNul(text)
    requires forall i :: 0 <= i < |text| ==> buffer[i] == text[i]
    requires buffer[|text|] == '\0'
    modifies buffer
    ensures n <= |text| && buffer[..n] == RemoveHyphens(text) && buffer[n] == '\0'
  {
    var p1, p2 := 0, 0;
    while buffer[p1] != '\0'
      invariant 0 <= p2 <= p1 <= |text|
      invariant forall i :: p1 <= i < |text| ==> buffer[i] == text[i] && text[i] != '\0'
      invariant buffer[|text|] == '\0'
      invariant buffer[..p2] == RemoveHyphens(text[..p1])
      decreases |text| - p1
    {
      assert text[..p1 + 1] == text[..p1] + [text[p1]];
      RemoveHyphensAppend(text[..p1], [text[p1]]);
      if buffer[p1] != '-' {
        buffer[p2] := buffer[p1];
        p2 := p2 + 1;
      }
      p1 := p1 + 1;
    }
    assert text[..p1] == text;
    buffer[p2] := '\0';
    n := p2;
  }

  /** `WAYLAND_DISPLAY=wayland--1` yields a name that still holds a hyphen. */
  lemma DoubledHyphenSurvives()
    ensures WalkSafe("wayland--1")
    ensures ServerInterfaceName(Some("wayland--1")) == PREFIX + "wayland-1"
    ensures '-' in ServerInterfaceName(Some("wayland--1"))
  {
    assert WalkSafe("1");
    CompactRunBefore(2, "1");
    assert Hyphens(2) + "1" == "--1" && Hyphens(1) + "1" == "-1";
    CompactAppend("wayland", "--1");
    assert "wayland--1" == "wayland" + "--1" && "wayland-1" == "wayland" + "-1";
    assert (PREFIX + "wayland-1")[24] == '-';
  }

  /** `WAYLAND_DISPLAY=wayland-` sends the loop past the terminator. */
  lemma TrailingHyphenOverruns()
    ensures !WalkSafe("wayland-")
  {
    CompactRunAtEnd(1);
    assert Hyphens(1) == "-";
    CompactAppend("wayland", "-");
    assert "wayland-" == "wayland" + "-";
  }

  // ---------------------------------------------------------------------
  // Signals
  // ---------------------------------------------------------------------

  /** The signals of the `/WindowsList` vtable. */
  datatype SignalName =
    | WindowTitleChanged
    | WindowAppIdChanged
    | WindowOpened
    | WindowClosed
    | WindowActivated
    | WindowMaximized
    | WindowMinimized
    | WindowFullscreened

  /** One emitted signal: its name, the window id and, for the two "us" signals, the string. */
  datatype Signal = Signal(name: SignalName, id: u32, value: Option<string>)

  // ---------------------------------------------------------------------
  // Method callbacks
  // ---------------------------------------------------------------------

  /** The reply of `WindowState` for a known window. */
  function StateName(s: State): (r: string)
  {
    match s
    case Normal => "NORMAL"
    case Maximized => "MAXIMIZED"
    case Minimized => "MINIMIZED"
    case Fullscreen => "FULLSCREEN"
  }

  /** Reading a `WindowState` reply back; the partner of `StateName`. */
  function ParseStateName(r: string): (s: Option<State>)
  {
    if r == "NORMAL" then Some(Normal)
    else if r == "MAXIMIZED" then Some(Maximized)
    else if r == "MINIMIZED" then Some(Minimized)
    else if r == "FULLSCREEN" then Some(Fullscreen)
    else None
  }

  /** Distinct states give distinct replies, which read back as the state. */
  lemma StateNameRoundTrip(s: State)
    ensures ParseStateName(StateName(s)) == Some(s)
  {
  }

  /** `get_property_callback`: only `ProtocolVersion` is known, and it is 0; anything else is an error. */
  function PropertyValue(property: string): (r: Option<u32>)
    ensures r.Some? <==> property == "ProtocolVersion"
    ensures r.Some? ==> r.value == 0
  {
    if property == "ProtocolVersion" then Some(0) else None
  }

  /** The five action methods, each naming its `*_callback_func` handed to `window_set_action_callback`. */
  datatype ActionFunc =
    | WindowChangeFullscreen
    | WindowChangeMaximized
    | WindowChangeMinimized
    | WindowSetActive
    | WindowClose

  /**
   * The `window_send_*` call an action makes on a window in state `s` with
   * id `id`, given the active window `active`; `None` when it makes none.
   * Both "change fullscreen" and "change maximized" toggle maximized.
   */
  function ActionCall(f: ActionFunc, s: State, id: u32, active: u32): (c: Option<Call>)
    ensures f == WindowSetActive ==> (c.Some? <==> id != active)
    ensures f != WindowSetActive ==> c.Some?
    ensures c.Some? ==> c.value.FullscreenCall? == false
  {
    match f
    case WindowChangeFullscreen => Some(MaximizedCall(s != Maximized))
    case WindowChangeMaximized => Some(MaximizedCall(s != Maximized))
    case WindowChangeMinimized => Some(MinimizedCall(s != Minimized))
    case WindowSetActive => if id != active then Some(ActiveCall) else None
    case WindowClose => Some(CloseCall)
  }

  /** The state an action leaves on the window, before any compositor event. */
  function ActionState(f: ActionFunc, s: State, id: u32, active: u32): State {
    var c := ActionCall(f, s, id, active);
    if c.Some? then SentState(c.value, s) else s
  }

  /** The requests an action issues for a window with these handles. */
  function ActionRequests(f: ActionFunc, a: Actions, s: State, id: u32, active: u32): seq<Request> {
    var c := ActionCall(f, s, id, active);
    if c.Some? then Issued(a, c.value) else []
  }

  /** "Change maximized" and "change minimized" are toggles; "close" leaves the state alone. */
  lemma ActionToggles(s: State, id: u32, active: u32)
    ensures ActionState(WindowChangeMaximized, s, id, active) == (if s == Maximized then Normal else Maximized)
    ensures ActionState(WindowChangeMinimized, s, id, active) == (if s == Minimized then Normal else Minimized)
    ensures ActionState(WindowClose, s, id, active) == s
    ensures ActionState(WindowSetActive, s, id, active) == (if id != active && s == Minimized then Normal else s)
  {
  }

  /**
   * The call each action makes and the request it sends: maximize and
   * minimize ask for the opposite of the current state, close asks to close,
   * and activation asks only for a window that is not already active. While
   * no output is known, only activation reaches the compositor.
   */
  lemma ActionRequestsMade(a: Actions, s: State, id: u32, active: u32)
    ensures ActionCall(WindowChangeMaximized, s, id, active) == Some(MaximizedCall(s != Maximized))
    ensures ActionCall(WindowChangeMinimized, s, id, active) == Some(MinimizedCall(s != Minimized))
    ensures ActionCall(WindowClose, s, id, active) == Some(CloseCall)
    ensures a.output.Some? ==>
              ActionRequests(WindowChangeMaximized, a, s, id, active) ==
              [if s == Maximized then UnsetMaximized(a.handle) else SetMaximized(a.handle)]
    ensures a.output.Some? ==>
              ActionRequests(WindowChangeMinimized, a, s, id, active) ==
              [if s == Minimized then UnsetMinimized(a.handle) else SetMinimized(a.handle)]
    ensures a.output.Some? ==> ActionRequests(WindowClose, a, s, id, active) == [Close(a.handle)]
    ensures ActionRequests(WindowSetActive, a, s, id, active) ==
              (if id != active then [Activate(a.handle, a.seat)] else [])
    ensures a.output.None? ==> forall f :: f != WindowSetActive ==> ActionRequests(f, a, s, id, active) == []
  {
  }

  /**
   * "Change fullscreen" as written is "change maximized": a fullscreen
   * window is maximized instead of restored, and a normal one is maximized
   * instead of made fullscreen; no fullscreen request is ever sent.
   */
  lemma FullscreenToggleMaximizes(a: Actions, s: State, id: u32, active: u32)
    ensures ActionState(WindowChangeFullscreen, s, id, active) == ActionState(WindowChangeMaximized, s, id, active)
    ensures ActionRequests(WindowChangeFullscreen, a, s, id, active) == ActionRequests(WindowChangeMaximized, a, s, id, active)
    ensures ActionState(WindowChangeFullscreen, Fullscreen, id, active) == Maximized
    ensures forall q :: q in ActionRequests(WindowChangeFullscreen, a, s, id, active) ==> !q.SetFullscreen? && !q.UnsetFullscreen?
  {
  }

  /** The intended "change fullscreen": `window_send_set_fullscreen(state != FULLSCREEN)`. */
  function FixedActionCall(f: ActionFunc, s: State, id: u32, active: u32): (c: Option<Call>)
    ensures f != WindowChangeFullscreen ==> c == ActionCall(f, s, id, active)
  {
    if f == WindowChangeFullscreen then Some(FullscreenCall(s != Fullscreen)) else ActionCall(f, s, id, active)
  }

  /** With the intended call, "change fullscreen" toggles fullscreen and asks the compositor for exactly that. */
  lemma FixedFullscreenToggles(a: Actions, s: State, id: u32, active: u32)
    requires a.output.Some?
    ensures SentState(FixedActionCall(WindowChangeFullscreen, s, id, active).value, s) == (if s == Fullscreen then Normal else Fullscreen)
    ensures Issued(a, FixedActionCall(WindowChangeFullscreen, s, id, active).value) ==
              [if s == Fullscreen then UnsetFullscreen(a.handle) else SetFullscreen(a.handle, a.output.value)]
  {
  }

  /**
   * The service object: the registry and the Wayland connection it was
   * initialised with, the process-wide active window, the interface name and
   * the log of emitted signals.
   */
  class Service {
    const windowlist: WindowList
    const display: Display
    const active: ActiveWindow
    const interfaceName: string
    var signals: seq<Signal>

    /** `dbus_init`, without the bus connection itself. */
    constructor (env: Option<string>, windowlist: WindowList, display: Display, active: ActiveWindow)
      requires NoNul(DisplayValue(env)) && WalkSafe(DisplayValue(env))
      ensures this.windowlist == windowlist && this.display == display && this.active == active
      ensures interfaceName == ServerInterfaceName(env)
      ensures signals == []
    {
      var name := GetInterfaceName(env);
      this.windowlist := windowlist;
      this.display := display;
      this.active := active;
      interfaceName := name;
      signals := [];
    }

    /** `dbus_send_signal` */
    method SendSignal(name: SignalName, id: u32)
      modifies this`signals
      ensures signals == old(signals) + [Signal(name, id, None)]
    {
      signals := signals + [Signal(name, id, None)];
    }

    /** `dbus_send_signal_with_value` */
    method SendSignalWithValue(name: SignalName, id: u32, value: string)
      modifies this`signals
      ensures signals == old(signals) + [Signal(name, id, Some(value))]
    {
      signals := signals + [Signal(name, id, Some(value))];
    }

    /** `window_title_callback`: the stored title, or NULL for an unknown id or an unset title. */
    method WindowTitle(id: u32) returns (reply: Option<string>)
      requires windowlist.Valid()
      ensures id !in windowlist.Ids() ==> reply == None
      ensures reply.Some? ==> exists w :: w in windowlist.Contents && w.id == id && reply == w.title
      ensures Searchable(windowlist.Ids()) && id in windowlist.Ids() ==> reply == windowlist.Find(id).title
    {
      var w := windowlist.Get(id);
      reply := None;
      if w != null {
        reply := w.title;
      }
    }

    /** `window_app_id_callback`: the stored app-id, or NULL for an unknown id or an unset app-id. */
    method WindowAppId(id: u32) returns (reply: Option<string>)
      requires windowlist.Valid()
      ensures id !in windowlist.Ids() ==> reply == None
      ensures reply.Some? ==> exists w :: w in windowlist.Contents && w.id == id && reply == w.appId
      ensures Searchable(windowlist.Ids()) && id in windowlist.Ids() ==> reply == windowlist.Find(id).appId
    {
      var w := windowlist.Get(id);
      reply := None;
      if w != null {
        reply := w.appId;
      }
    }

    /** `window_state_callback`: the name of the stored state, or NULL for an unknown id. */
    method WindowState(id: u32) returns (reply: Option<string>)
      requires windowlist.Valid()
      ensures id !in windowlist.Ids() ==> reply == None
      ensures reply.Some? ==> exists w :: w in windowlist.Contents && w.id == id && reply == Some(StateName(w.state))
      ensures Searchable(windowlist.Ids()) && id in windowlist.Ids() ==>
                reply == Some(StateName(windowlist.Find(id).state))
    {
      var w := windowlist.Get(id);
      reply := None;
      if w != null {
        reply := Some(StateName(w.state));
      }
    }

    /** `window_list_callback`: every registered id, in list order. */
    method WindowList() returns (reply: seq<u32>)
      requires windowlist.Valid()
      ensures reply == windowlist.Ids()
    {
      reply := windowlist.GetIds();
    }

    /** One of the five `*_callback_func` actions, applied to a found window. */
    method RunAction(f: ActionFunc, w: Window, id: u32)
      modifies w`state, display`requests
      ensures w.state == ActionState(f, old(w.state), id, active.id)
      ensures display.requests == old(display.requests) + ActionRequests(f, w.actions, old(w.state), id, active.id)
    {
      match f
      case WindowChangeFullscreen =>
        w.SendSetMaximized(w.state != Maximized, display);
      case WindowChangeMaximized =>
        w.SendSetMaximized(w.state != Maximized, display);
      case WindowChangeMinimized =>
        w.SendSetMinimized(w.state != Minimized, display);
      case WindowSetActive =>
        var current := active.Get();
        if id != current {
          w.SendSetActive(display);
        }
      case WindowClose =>
        w.SendClose(display);
    }

    /**
     * `window_set_action_callback`: looks the window up; a found window gets
     * the action followed by one round trip, an unknown id gets nothing.
     * The reply is always 0.
     */
    method SetAction(id: u32, f: ActionFunc) returns (reply: u32)
      requires windowlist.Valid()
      modifies windowlist.Contents, display
      ensures reply == 0
      ensures id !in old(windowlist.Ids()) ==>
                display.requests == old(display.requests) && display.roundtrips == old(display.roundtrips)
      ensures forall v :: v in windowlist.Contents && v.id != id ==> v.state == old(v.state)
      ensures forall v :: v in windowlist.Contents ==>
                v.title == old(v.title) && v.appId == old(v.appId) && v.actions == old(v.actions)
      ensures Searchable(windowlist.Ids()) && id in windowlist.Ids() ==>
                var w := windowlist.Find(id);
                && w.state == ActionState(f, old(w.state), id, active.id)
                && display.requests == old(display.requests) + ActionRequests(f, w.actions, old(w.state), id, active.id)
                && display.roundtrips == old(display.roundtrips) + 1
    {
      var w := windowlist.Get(id);
      if w != null {
        RunAction(f, w, id);
        display.Roundtrip();
      }
      reply := 0;
    }
  }
}
