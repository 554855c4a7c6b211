# LXQt panel: Wayland window-list bridge and backlight steps

This project is a Dafny model of two parts of an LXQt panel fork, with
proofs.

The first part is the **Wayland toplevel bridge**. It is a small C daemon
that listens to a compositor through the wlr-foreign-toplevel-management
protocol and keeps a registry of the open windows. Each window has an id, a
title, an app-id and a state. The daemon publishes the registry on the
session bus as the object `/WindowsList`, under the interface
`lxqt.WindowsList.` followed by `WAYLAND_DISPLAY`, or by `wayland` when the
variable is unset. The hyphen loop that builds the name drops each `-` but
copies the character after it as it is, so of `--` one `-` survives, and a
trailing `-` sends the loop past the end of its buffer (see Findings).
The daemon answers queries and turns D-Bus action calls into protocol
requests. The task bar's Qt
client derives the service name on its own side and reads the answers. The
two names agree only when `WAYLAND_DISPLAY` is set and holds no doubled
hyphen (see Findings).

The second part is the **backlight plugin's arithmetic**. A keyboard step
scale and a pop-up slider both convert between a 0..40 scale and the
device's 0..max range. Values up to 20 pass through unchanged.

Modules, one per source file:

| file | module | models |
|---|---|---|
| `common.dfy` | `Common` | `Option`, `u32`, hyphen removal |
| `wayland_window_actions.dfy` | `WaylandActions` | the five gated protocol requests; the Wayland connection as a request log |
| `window.dfy` | `Windows` | `struct Window` as a class; the active-window id |
| `windowlist.dfy` | `WindowLists` | the registry: a growable array, linear removal, binary search |
| `dbus.dfy` | `DBus` | the interface-name loop (as written and corrected); the query and action callbacks of the service; the signal log |
| `main.dfy` | `Manager` | the protocol event handlers and the id counter |
| `dbusappslistener.dfy` | `AppsListener` | the client's name, path and call fallbacks |
| `backlight.dfy` | `Backlight` | the step scale and the Up/Down shortcuts |
| `sliderdialog.dfy` | `Slider` | the slider scale, QSlider bounding, the up/down buttons |

Objects that the C or C++ code updates in place are Dafny classes:
`Window`, `WindowList` over an `array`, `Service`, `Manager`, `Device`,
`SliderDialog`. Each method is proved against a specification function,
for example `IndexOf`, `RemovedAt`, `Compact`, `StateAfter`,
`BacklightFromStep` or `Bound`. The lemmas state what those functions
promise.

## Model

| member | source | states |
|---|---|---|
| Common.RemoveHyphensClean | plugin-waylandtaskbar/dbusappslistener.cpp:11 | The result of deleting every `-` contains no `-`, and a text without `-` is returned unchanged. |
| Common.RemoveHyphens | plugin-waylandtaskbar/dbusappslistener.cpp:11 | `QByteArray::replace("-", "")`: never longer than its input. `RemoveHyphensClean` and `RemoveHyphensAppend` state what it deletes and keeps. |
| Common.RemoveHyphensAppend | plugin-waylandtaskbar/dbusappslistener.cpp:10-11 | Deleting hyphens from a concatenation is the same as deleting them from each part. |
| WaylandActions.Issued | plugin-waylandtaskbar/drivers/wayland_toplevel/src/wayland_window_actions.c:33-73 | A gating call sends at most one request, on the window's own handle. Activation always sends `activate` with the seat. Every other call sends nothing exactly when no output is known. |
| WaylandActions.IssuedMatchesValue | plugin-waylandtaskbar/drivers/wayland_toplevel/src/wayland_window_actions.c:33-68 | With an output known, each `set_*` call sends the set request for `true` and the unset request for `false`. `set_fullscreen` carries the stored output. |
| WaylandActions.ActionClose | plugin-waylandtaskbar/drivers/wayland_toplevel/src/wayland_window_actions.c:33-38 | Appends exactly the gated `close` request to the connection. |
| WaylandActions.ActionSetFullscreen | plugin-waylandtaskbar/drivers/wayland_toplevel/src/wayland_window_actions.c:40-48 | Appends exactly the gated set or unset fullscreen request. |
| WaylandActions.ActionSetMaximized | plugin-waylandtaskbar/drivers/wayland_toplevel/src/wayland_window_actions.c:50-58 | Appends exactly the gated set or unset maximized request. |
| WaylandActions.ActionSetMinimized | plugin-waylandtaskbar/drivers/wayland_toplevel/src/wayland_window_actions.c:60-68 | Appends exactly the gated set or unset minimized request. |
| WaylandActions.ActionSetActive | plugin-waylandtaskbar/drivers/wayland_toplevel/src/wayland_window_actions.c:70-73 | Appends `activate` with the seat, without checking the output. |
| Windows.Window.constructor | plugin-waylandtaskbar/drivers/wayland_toplevel/src/window.c:36-45 | A new window has the given id, no title and no app-id, state NORMAL, no output, and the given handle and seat. |
| Windows.Window.Clear | plugin-waylandtaskbar/drivers/wayland_toplevel/src/window.c:48-53 | Title and app-id are released; state and actions stay. |
| Windows.Window.SetTitle | plugin-waylandtaskbar/drivers/wayland_toplevel/src/window.c:67-71 | The title is replaced; nothing else changes. |
| Windows.Window.SetAppId | plugin-waylandtaskbar/drivers/wayland_toplevel/src/window.c:73-76 | The app-id is replaced; nothing else changes. |
| Windows.Window.SetState | plugin-waylandtaskbar/drivers/wayland_toplevel/src/window.c:78-81 | The state is replaced; nothing else changes. |
| Windows.Window.SetOutput | plugin-waylandtaskbar/drivers/wayland_toplevel/src/window.c:112-115 | Only the output of the window's actions changes. |
| Windows.Window.SendSetFullscreen | plugin-waylandtaskbar/drivers/wayland_toplevel/src/window.c:83-87 | The gated request is sent. The local state becomes FULLSCREEN or NORMAL at once, whether or not anything was sent. |
| Windows.Window.SendSetMaximized | plugin-waylandtaskbar/drivers/wayland_toplevel/src/window.c:89-93 | Same as above, with MAXIMIZED. |
| Windows.Window.SendSetMinimized | plugin-waylandtaskbar/drivers/wayland_toplevel/src/window.c:95-99 | Same as above, with MINIMIZED. |
| Windows.Window.SendSetActive | plugin-waylandtaskbar/drivers/wayland_toplevel/src/window.c:101-105 | `activate` is sent. A minimized window is recorded as NORMAL; any other state is kept. |
| Windows.Window.SendClose | plugin-waylandtaskbar/drivers/wayland_toplevel/src/window.c:107-110 | Only the gated `close` request is sent; the record is untouched. |
| Windows.SentState | plugin-waylandtaskbar/drivers/wayland_toplevel/src/window.c:83-105 | A send with `true` records its state and one with `false` records NORMAL. Activation never leaves MINIMIZED and otherwise keeps the state. |
| Windows.ActiveWindow.Get | plugin-waylandtaskbar/drivers/wayland_toplevel/src/window.c:56-59 | Returns the stored active id. |
| Windows.ActiveWindow.constructor | plugin-waylandtaskbar/drivers/wayland_toplevel/src/window.c:34 | The process-wide active id starts at 0. |
| Windows.ActiveWindow.Set | plugin-waylandtaskbar/drivers/wayland_toplevel/src/window.c:62-65 | Stores the active id. |
| WindowLists.BlockAlignedIsMultiple | plugin-waylandtaskbar/drivers/wayland_toplevel/src/windowlist.c:53 | The capacity invariant (whole blocks of 8) is exactly divisibility by 8. |
| WindowLists.IndexOf | plugin-waylandtaskbar/drivers/wayland_toplevel/src/windowlist.c:69-71 | The scan's stopping index is the first position holding the id, or the size when none does. |
| WindowLists.IndexOfIsFirst | plugin-waylandtaskbar/drivers/wayland_toplevel/src/windowlist.c:69-71 | Any index that holds the id, with no earlier index holding it, is the one `IndexOf` returns. |
| WindowLists.RemovedAt | plugin-waylandtaskbar/drivers/wayland_toplevel/src/windowlist.c:72-75 | One entry fewer. The entries before `k` stay and those after it move down one. With no match, the last entry is dropped. |
| WindowLists.Cmp32 | plugin-waylandtaskbar/drivers/wayland_toplevel/src/windowlist.c:93 | The wrapped difference is 0 exactly for equal ids. Its sign orders the ids correctly when both are below 2^31. |
| WindowLists.RemovedAtAscending | plugin-waylandtaskbar/drivers/wayland_toplevel/src/windowlist.c:66-80 | Removal keeps the ids ascending. |
| WindowLists.RemovedAtIndexOfGone | plugin-waylandtaskbar/drivers/wayland_toplevel/src/windowlist.c:66-80 | In an ascending registry, no entry is left with the removed id. |
| WindowLists.WindowList.Find | plugin-waylandtaskbar/drivers/wayland_toplevel/src/windowlist.c:82-99 | The registered window with the id, or null exactly when the id is not registered. |
| WindowLists.WindowList.constructor | plugin-waylandtaskbar/drivers/wayland_toplevel/src/windowlist.c:34-39 | An empty registry with capacity 8. |
| WindowLists.WindowList.Clear | plugin-waylandtaskbar/drivers/wayland_toplevel/src/windowlist.c:41-47 | Empty, with capacity 0, and still valid, so it can grow again. |
| WindowLists.WindowList.Add | plugin-waylandtaskbar/drivers/wayland_toplevel/src/windowlist.c:49-64 | Appends the window. Capacity grows by 8 exactly when the size passes it. An id above all registered ids keeps them ascending. |
| WindowLists.WindowList.Remove | plugin-waylandtaskbar/drivers/wayland_toplevel/src/windowlist.c:66-80 | The contents become `RemovedAt` at the first match. The size drops by one. Capacity shrinks by 8 only when it exceeds 8 and the size is below capacity − 10, so it never goes below 8. Ascending ids stay ascending and the id is gone. |
| WindowLists.WindowList.ShiftLeft | plugin-waylandtaskbar/drivers/wayland_toplevel/src/windowlist.c:72-74 | After the shift the first size − 1 slots hold `RemovedAt` of the contents at the removed position: the entries before it in place, the ones after it one slot down. |
| WindowLists.WindowList.Shrink | plugin-waylandtaskbar/drivers/wayland_toplevel/src/windowlist.c:76-79 | One block of 8 is given back exactly when the capacity exceeds 8 and the size is below capacity − 10; the registry stays valid. |
| WindowLists.WindowList.Realloc | plugin-waylandtaskbar/drivers/wayland_toplevel/src/windowlist.c:54 | A fresh array of the new capacity holds the old entries in every slot both arrays have. |
| WindowLists.WindowList.Get | plugin-waylandtaskbar/drivers/wayland_toplevel/src/windowlist.c:82-99 | The binary search only returns a registered window with the asked id. On an ascending registry below 2^31 it returns exactly `Find(id)`. |
| WindowLists.WindowList.GetIds | plugin-waylandtaskbar/drivers/wayland_toplevel/src/windowlist.c:103-111 | The ids of the registered windows, in list order. |
| DBus.Compact | plugin-waylandtaskbar/drivers/wayland_toplevel/src/dbus.c:42-48 | What the in-place loop leaves; it is never longer than its input. |
| DBus.CompactAppend | plugin-waylandtaskbar/drivers/wayland_toplevel/src/dbus.c:42-48 | A hyphen-free prefix (such as `lxqt.WindowsList.`) passes through unchanged. The loop stays in bounds exactly when it does on the rest. |
| DBus.CompactRunBefore | plugin-waylandtaskbar/drivers/wayland_toplevel/src/dbus.c:42-48 | A run of k hyphens before another character becomes k/2 hyphens. |
| DBus.CompactRunAtEnd | plugin-waylandtaskbar/drivers/wayland_toplevel/src/dbus.c:42-48 | A trailing run of hyphens keeps the loop in bounds exactly when its length is even, and it is halved. |
| DBus.CompactWithoutDoubles | plugin-waylandtaskbar/drivers/wayland_toplevel/src/dbus.c:42-48 | Without two adjacent hyphens, the loop removes every hyphen. |
| DBus.CompactKeepsDoubles | plugin-waylandtaskbar/drivers/wayland_toplevel/src/dbus.c:42-48 | With two adjacent hyphens, a hyphen survives. |
| DBus.CompactRemovesAllIff | plugin-waylandtaskbar/drivers/wayland_toplevel/src/dbus.c:42-48 | The loop achieves its stated aim (no `-` left) exactly when no hyphen is doubled. |
| DBus.DisplayValue | plugin-waylandtaskbar/drivers/wayland_toplevel/src/dbus.c:37-39 | `WAYLAND_DISPLAY`, or `wayland` when it is unset. |
| DBus.ServerInterfaceName | plugin-waylandtaskbar/drivers/wayland_toplevel/src/dbus.c:33-53 | The name is the prefix followed by the compacted display value. |
| DBus.ServerNameDefault | plugin-waylandtaskbar/drivers/wayland_toplevel/src/dbus.c:37-41 | With the variable unset, the name is `lxqt.WindowsList.wayland`. |
| DBus.GetInterfaceName | plugin-waylandtaskbar/drivers/wayland_toplevel/src/dbus.c:33-53 | The buffer-and-two-pointer loop computes `ServerInterfaceName`, when the input keeps it in bounds. |
| DBus.CompactHyphens | plugin-waylandtaskbar/drivers/wayland_toplevel/src/dbus.c:42-48 | The in-place loop leaves `Compact(text)` followed by a terminator in the buffer. |
| DBus.DoubledHyphenSurvives | plugin-waylandtaskbar/drivers/wayland_toplevel/src/dbus.c:43-48 | `wayland--1` gives `lxqt.WindowsList.wayland-1`, which still holds a hyphen. |
| DBus.TrailingHyphenOverruns | plugin-waylandtaskbar/drivers/wayland_toplevel/src/dbus.c:43-47 | `wayland-` drives the loop past the terminator. |
| DBus.GetInterfaceNameFixed | plugin-waylandtaskbar/drivers/wayland_toplevel/src/dbus.c:35-36 | The corrected loop gives the prefix followed by the display value with every hyphen removed, for every input. The result holds no `-`. |
| DBus.DropHyphens | plugin-waylandtaskbar/drivers/wayland_toplevel/src/dbus.c:35-36 | The corrected loop leaves `RemoveHyphens(text)` and a terminator in the buffer. |
| DBus.StateNameRoundTrip | plugin-waylandtaskbar/drivers/wayland_toplevel/src/dbus.c:124-129 | The four reply strings name the four states one-to-one. |
| DBus.StateName | plugin-waylandtaskbar/drivers/wayland_toplevel/src/dbus.c:124-129 | The reply string for each state; `StateNameRoundTrip` states that it is one-to-one. |
| DBus.PropertyValue | plugin-waylandtaskbar/drivers/wayland_toplevel/src/dbus.c:56-69 | Only `ProtocolVersion` has a value, and that value is 0. Any other property fails. |
| DBus.ActionCall | plugin-waylandtaskbar/drivers/wayland_toplevel/src/dbus.c:200-271 | WindowSetActive calls `activate` exactly when the window is not the active one. Every other action makes a call, and none of them is a fullscreen call. Which call each makes is stated by `DBus.ActionRequestsMade`. |
| DBus.ActionToggles | plugin-waylandtaskbar/drivers/wayland_toplevel/src/dbus.c:217-271 | WindowChangeMaximized and WindowChangeMinimized toggle their state against NORMAL. WindowClose keeps the state. WindowSetActive restores a minimized window that is not active. |
| DBus.ActionRequestsMade | plugin-waylandtaskbar/drivers/wayland_toplevel/src/dbus.c:217-271 | WindowChangeMaximized calls `set_maximized(state != MAXIMIZED)` and WindowChangeMinimized calls `set_minimized(state != MINIMIZED)`; WindowClose calls `close`. With an output known, each sends exactly the matching set, unset or close request on the window's handle. WindowSetActive sends `activate` with the seat exactly when the window is not active. Without an output, only activation sends anything. |
| DBus.FullscreenToggleMaximizes | plugin-waylandtaskbar/drivers/wayland_toplevel/src/dbus.c:200-204 | WindowChangeFullscreen does exactly what WindowChangeMaximized does. A fullscreen window becomes MAXIMIZED and no fullscreen request is sent. |
| DBus.FixedActionCall | plugin-waylandtaskbar/drivers/wayland_toplevel/src/dbus.c:200-204 | The corrected dispatcher agrees with the original on every action except WindowChangeFullscreen. |
| DBus.FixedFullscreenToggles | plugin-waylandtaskbar/drivers/wayland_toplevel/src/dbus.c:200-204 | The corrected WindowChangeFullscreen toggles FULLSCREEN against NORMAL and sends the matching fullscreen request. |
| DBus.Service.constructor | plugin-waylandtaskbar/drivers/wayland_toplevel/src/dbus.c:376-383 | The service holds the registry, the connection and the active id, with its name from `get_dbus_interface_name` and no signals yet. |
| DBus.Service.SendSignal | plugin-waylandtaskbar/drivers/wayland_toplevel/src/dbus.c:426-433 | Emits one signal carrying the window id. |
| DBus.Service.SendSignalWithValue | plugin-waylandtaskbar/drivers/wayland_toplevel/src/dbus.c:435-442 | Emits one signal carrying the window id and a string. |
| DBus.Service.WindowTitle | plugin-waylandtaskbar/drivers/wayland_toplevel/src/dbus.c:74-99 | An unknown id gives NULL; a returned title belongs to a registered window with that id. On a searchable registry the reply is exactly that window's title. |
| DBus.Service.WindowAppId | plugin-waylandtaskbar/drivers/wayland_toplevel/src/dbus.c:138-162 | Same as above, for the app-id. |
| DBus.Service.WindowState | plugin-waylandtaskbar/drivers/wayland_toplevel/src/dbus.c:103-134 | Same as above, for the state name. |
| DBus.Service.WindowList | plugin-waylandtaskbar/drivers/wayland_toplevel/src/dbus.c:285-301 | Replies with every registered id, in list order. |
| DBus.Service.RunAction | plugin-waylandtaskbar/drivers/wayland_toplevel/src/dbus.c:200-271 | The found window's new state and the requests sent follow `ActionState` and `ActionRequests`. |
| DBus.Service.SetAction | plugin-waylandtaskbar/drivers/wayland_toplevel/src/dbus.c:166-198 | The reply is always 0. An unknown id sends nothing and makes no round trip. A found window gets the action and one round trip. No other window's state and no title, app-id or output changes. |
| Manager.StateLastEntryWins | plugin-waylandtaskbar/drivers/wayland_toplevel/src/main.c:164-184 | In one state event, the last maximized, minimized or fullscreen entry decides the state. |
| Manager.StateKeptWithoutStateEntries | plugin-waylandtaskbar/drivers/wayland_toplevel/src/main.c:164-184 | An event without such entries keeps the state. Even an empty event never resets it to NORMAL. |
| Manager.ActiveAfterActivated | plugin-waylandtaskbar/drivers/wayland_toplevel/src/main.c:175-178 | An activated entry makes this window the active one; otherwise the active id stays. |
| Manager.SignalsForWindow | plugin-waylandtaskbar/drivers/wayland_toplevel/src/main.c:164-184 | A state event emits at most one signal per entry. Each signal names this window and carries no string. |
| Manager.StateEventExample | plugin-waylandtaskbar/drivers/wayland_toplevel/src/main.c:164-184 | Maximized, minimized, maximized: three signals in that order, and the window ends MAXIMIZED. |
| Manager.Manager.constructor | plugin-waylandtaskbar/drivers/wayland_toplevel/src/main.c:319-325 | The counter starts at 0, with an empty registry and the service wired to it. |
| Manager.Manager.OnToplevel | plugin-waylandtaskbar/drivers/wayland_toplevel/src/main.c:64-74 | The new window takes the counter as its id, above every registered id, and the counter advances. The window is appended with the manager's output and seat, and WindowOpened is emitted. The registry stays ascending. |
| Manager.Manager.OnTitle | plugin-waylandtaskbar/drivers/wayland_toplevel/src/main.c:96-103 | Stores the title and emits WindowTitleChanged with it. |
| Manager.Manager.OnAppId | plugin-waylandtaskbar/drivers/wayland_toplevel/src/main.c:111-118 | Stores the app-id and emits WindowAppIdChanged with it. |
| Manager.Manager.OnOutputEnter | plugin-waylandtaskbar/drivers/wayland_toplevel/src/main.c:126-132 | Replaces the window's output. |
| Manager.Manager.OnIgnored | plugin-waylandtaskbar/drivers/wayland_toplevel/src/main.c:142-147 | output_leave changes nothing, and neither do the done (main.c:197-203) and parent (main.c:236-241) handlers. |
| Manager.Manager.OnState | plugin-waylandtaskbar/drivers/wayland_toplevel/src/main.c:157-185 | The state, the signals and the active id are `StateAfter`, `SignalsFor` and `ActiveAfter` of the entries, in array order. |
| Manager.Manager.OnClosed | plugin-waylandtaskbar/drivers/wayland_toplevel/src/main.c:214-224 | Emits WindowClosed and removes the window, so a later lookup of its id finds nothing. The others stay in order. Its strings are released. |
| Manager.Manager.OnFinished | plugin-waylandtaskbar/drivers/wayland_toplevel/src/main.c:258-264 | The registry is emptied and stays valid. |
| AppsListener.ClientNameShape | plugin-waylandtaskbar/dbusappslistener.cpp:9-16 | The client's name is the prefix followed by the variable with all hyphens removed, so it holds no `-`. Its object path equals the server's. |
| AppsListener.ClientInterfaceName | plugin-waylandtaskbar/dbusappslistener.cpp:9-12 | `mDBusInterfaceName`: the name holds no `-`. `ClientNameShape` gives its exact shape and `NamesAgreeIff` relates it to the server's name. |
| AppsListener.NamesAgreeIff | plugin-waylandtaskbar/dbusappslistener.cpp:9-12 | Client and server names agree exactly when `WAYLAND_DISPLAY` is set and has no two adjacent hyphens. |
| AppsListener.NamesDifferWhenUnset | plugin-waylandtaskbar/dbusappslistener.cpp:10 | With the variable unset, the server registers `lxqt.WindowsList.wayland` and the client asks for `lxqt.WindowsList.`. |
| AppsListener.FixedNamesAgree | plugin-waylandtaskbar/dbusappslistener.cpp:10 | With the server's default, the client always names what the corrected server registers. |
| AppsListener.CallUint | plugin-waylandtaskbar/dbusappslistener.cpp:59-81 | 0 when the bus is unconnected or the reply is empty; otherwise the first argument. |
| AppsListener.CallString | plugin-waylandtaskbar/dbusappslistener.cpp:83-103 | The empty string when the bus is unconnected or the reply is empty; otherwise the first argument. |
| AppsListener.UnknownReadsAsEmpty | plugin-waylandtaskbar/dbusappslistener.cpp:98-102 | An unknown window, an unset title and an empty title all reach the task bar as the same empty string. |
| AppsListener.GetWindowList | plugin-waylandtaskbar/dbusappslistener.cpp:147-178 | Nothing when unconnected; otherwise every id of every array argument, in order. |
| AppsListener.WindowListRoundTrip | plugin-waylandtaskbar/dbusappslistener.cpp:162-174 | For the server's single-array reply, the client gets exactly the registered ids. |
| Backlight.RoundHalfUp | plugin-backlight/backlight.cpp:176 | `(int)(n/d + 0.5)` is the nearest integer to n/d, with halves rounded up. |
| Backlight.PassThrough | plugin-backlight/backlight.cpp:175-188 | With max ≤ 20 or a value ≤ 20, both conversions return the value unchanged, with no clamping. |
| Backlight.BacklightFromStep | plugin-backlight/backlight.cpp:175-176 | A scaled step never requests less than the first step's backlight, 20. `TopStep`, `StepRoundTrip` and `BacklightFromStepMonotone` state the rest. |
| Backlight.StepFromBacklight | plugin-backlight/backlight.cpp:187-188 | A scaled backlight never reads as a step below 20. `TopStep`, `StepRoundTrip` and `StepFromBacklightMonotone` state the rest. |
| Backlight.TopStep | plugin-backlight/backlight.cpp:175-188 | For max > 20, step 40 requests exactly max and backlight max reads as step 40. |
| Backlight.StepRoundTrip | plugin-backlight/backlight.cpp:169-189 | For max ≥ 40 and a step s > 20, reading back the backlight that s requests gives s. |
| Backlight.BacklightFromStepMonotone | plugin-backlight/backlight.cpp:169-178 | A higher step never requests a lower backlight. |
| Backlight.StepFromBacklightMonotone | plugin-backlight/backlight.cpp:180-189 | A higher backlight never reads as a lower step. |
| Backlight.Device.SetBacklight | plugin-backlight/backlight.cpp:177 | Records one request to the device. |
| Backlight.BacklightPlugin.GetBacklightStep | plugin-backlight/backlight.cpp:180-189 | Returns `StepFromBacklight` of the device's level. |
| Backlight.BacklightPlugin.SetBacklightStep | plugin-backlight/backlight.cpp:169-178 | Requests `BacklightFromStep` of the value. |
| Backlight.BacklightPlugin.HandleShortcutUp | plugin-backlight/backlight.cpp:154-158 | Requests the backlight of step + 1. For max ≥ 40 and step ≥ 20, that backlight reads as exactly one step up. |
| Backlight.BacklightPlugin.HandleShortcutDown | plugin-backlight/backlight.cpp:148-152 | Requests the backlight of step − 1. At or below level 20 that is level − 1, so 0 requests −1. For max ≥ 40 and step > 21 it reads as exactly one step down. |
| Slider.SliderEnds | plugin-backlight/sliderdialog.cpp:127-135 | For max > 20, slider 0 requests 0 and slider 40 requests exactly max. Every slider position requests within 0..max. |
| Slider.SliderPassThrough | plugin-backlight/sliderdialog.cpp:127-135 | With max ≤ 20 or a value ≤ 20, the slider requests its own value and shows a backlight value as it is. |
| Slider.SliderToBacklight | plugin-backlight/sliderdialog.cpp:132-133 | `setBacklight`'s map; `SliderEnds`, `SliderPassThrough` and `SliderMonotoneIff` state its properties. |
| Slider.BacklightToSlider | plugin-backlight/sliderdialog.cpp:100-101 | `updateBacklight`'s map; `SliderShowsRange` and `SliderPassThrough` state its properties. |
| Slider.SliderMaximum | plugin-backlight/sliderdialog.cpp:66-72 | The slider maximum: max itself for a range of at most 20, else 40; the constructor's contract uses it. |
| Slider.SliderShowsRange | plugin-backlight/sliderdialog.cpp:94-103 | For max > 20, every backlight in 0..max is shown within 0..40, and max is shown as 40. |
| Slider.SliderMonotoneIff | plugin-backlight/sliderdialog.cpp:132-133 | The requested backlight rises with the slider exactly when max ≥ 39. |
| Slider.SliderDropsAtThirty | plugin-backlight/sliderdialog.cpp:132-133 | With max = 30, slider 20 requests 20 but slider 21 requests 15. |
| Slider.SliderFixedMonotone | plugin-backlight/sliderdialog.cpp:127-135 | The corrected slider map (the step scale) rises with the slider for every max > 20 and still maps 0 to 0 and 40 to max. |
| Slider.Bound | plugin-backlight/sliderdialog.cpp:102-114 | The slider pulls a value into its range and leaves values inside the range alone. |
| Slider.SliderDialog.constructor | plugin-backlight/sliderdialog.cpp:63-84 | An available device gets range [0, max] when max ≤ 20 and [0, 40] otherwise, showing the bounded current level. Otherwise the controls are disabled at 0. Nothing is requested, because the slots are connected last. |
| Slider.SliderDialog.UpdateBacklight | plugin-backlight/sliderdialog.cpp:94-103 | The slider shows the bounded `BacklightToSlider` of the level. |
| Slider.SliderDialog.SliderValueChanged | plugin-backlight/sliderdialog.cpp:127-135 | Requests `SliderToBacklight` of the slider value. |
| Slider.SliderDialog.SetValue | plugin-backlight/sliderdialog.cpp:102-114 | Bounds the value. A real change passes one request to the device while connected. |
| Slider.SliderDialog.SetRange | plugin-backlight/sliderdialog.cpp:67-72 | `QAbstractSlider::setRange`: the range becomes [lo, max(lo, hi)], the value is bounded into it, and a change of value passes one request on while connected. |
| Slider.SliderDialog.SetMaximum | plugin-backlight/sliderdialog.cpp:68 | The maximum becomes hi, the minimum drops to hi if above it, and the value is bounded as in `SetRange`. |
| Slider.SliderDialog.SetMinimum | plugin-backlight/sliderdialog.cpp:69 | The minimum becomes lo, the maximum rises to lo if below it, and the value is bounded as in `SetRange`. |
| Slider.SliderDialog.UpButtonClicked | plugin-backlight/sliderdialog.cpp:112-115 | One position up. At the top nothing is requested; otherwise the request is for the new position. |
| Slider.SliderDialog.DownButtonClicked | plugin-backlight/sliderdialog.cpp:106-109 | One position down. At the bottom nothing is requested; otherwise the request is for the new position. |

## Left out

- The Wayland connection, the registry binding of `wl_output` and `wl_seat`, and the event loop (`main.c` apart from the handlers). The bound output and seat are constructor parameters of `Manager.Manager`.
- The sd-bus plumbing: opening the bus, vtable registration, polling and `dbus_finish`. A callback's id argument arrives already decoded, so the failure return for an unparsable message is not modelled. An emitted signal is a log entry; send errors are not modelled.
- Re-entrancy during `wl_display_roundtrip`: the compositor's events are not dispatched inside `DBus.Service.SetAction`. The round trip is only counted.
- Allocation failure: `malloc` and `realloc` always succeed. The failure branch of `windowlist_add`, which would then overwrite the last slot, is not modelled, and neither is a NULL result from `windowlist_get_ids`.
- Memory ownership (`strdup`, `free`, the `Handler` allocation). A `Handler` is represented by the window it wraps.
- WindowLists.WindowList.Remove: requires a non-empty registry. In C, removing from an empty list wraps `size` to 2^32 − 1. That can only happen after `finished` has cleared the list while handles still report `closed`.
- Manager.Manager.OnToplevel: requires the counter below 2^31. The wrap of the 32-bit counter, and ids at or above 2^31 (which break the signed comparison of the binary search, see `WindowLists.Cmp32`), are not followed.
- Manager.Manager.OnClosed: requires a non-empty registry, for the same reason as `Remove`.
- WindowLists.WindowList.GetIds returns a sequence instead of a freshly allocated buffer.
- WindowLists.WindowList.GetIds and DBus.Service.WindowList: the `windowlist_foreach` macro (windowlist.h:52) reads `windows[0]` before testing the size, and `windows[size]` on its last step. After `finished` has set `windows` to NULL, a WindowList call therefore dereferences NULL in C. The model reads only the first `size` slots and returns `[]` for an empty or cleared registry.
- `WindowLists.WindowList.ShiftLeft`, `WindowLists.WindowList.Shrink`, `DBus.CompactHyphens` and `DBus.DropHyphens` are parts of `windowlist_remove` and `get_dbus_interface_name` (the shift loop, the capacity shrink and the copy loops), split out as methods of their own.
- DBus.GetInterfaceName: requires the input to keep the loop inside its buffer (see Findings). Past the terminator, C reads whatever follows.
- The client's constructor: its bus retries, its sleeps and its signal subscriptions (dbusappslistener.cpp:18-57). The slots that re-emit signals are left out too.
- QDBusArgument decoding: a reply is modelled as its already-decoded arguments.
- AppsListener.CallUint: `toInt` of a `uint` argument, returned again as `uint`, is taken as the identity.
- All widget code: dialog construction, `event`, buttons' auto-repeat, notifications and shortcut registration (backlight.cpp:36-146). lxqttaskgroup.cpp and the headers are not part of this model.
- Floating point: the `float` expressions of backlight.cpp:176,188 are taken as exact rational round-half-up.
- C `int` overflow in `value * maxBacklight` and the like is not modelled; integers are unbounded.
- The backlight device: its level is an input and each `setBacklight` is a recorded request. Whether the device accepts a value such as −1 or above max is its own business. Device availability is a constructor parameter of `Slider.SliderDialog`.

## Findings

The classes above model the code as written: `DBus.Service` uses
`GetInterfaceName`, `DBus.Service.RunAction` uses the original dispatch and
`Slider.SliderDialog` the original slider map. Each corrected member below
stands beside them with its intended property proved.

| source | as written | input that shows it | evidently intended | confidence | as-written member | corrected member |
|---|---|---|---|---|---|---|
| plugin-waylandtaskbar/drivers/wayland_toplevel/src/dbus.c:43-48 | A `-` is skipped and the next character is copied unconditionally, so one `-` of a `--` pair survives. | `WAYLAND_DISPLAY=wayland--1` gives `lxqt.WindowsList.wayland-1` | No `-` in the name, as the comment at dbus.c:35-36 says | not executed; high | DBus.DoubledHyphenSurvives | DBus.GetInterfaceNameFixed |
| plugin-waylandtaskbar/drivers/wayland_toplevel/src/dbus.c:43-47 | A trailing `-` makes the loop step over the terminator and keep reading past the buffer. | `WAYLAND_DISPLAY=wayland-` | Stop at the terminator | not executed; high | DBus.TrailingHyphenOverruns | DBus.GetInterfaceNameFixed |
| plugin-waylandtaskbar/drivers/wayland_toplevel/src/dbus.c:200-204 | WindowChangeFullscreen calls `window_send_set_maximized`. | A FULLSCREEN window gets WindowChangeFullscreen: it is sent `set_maximized` and recorded MAXIMIZED | Toggle fullscreen with `set_fullscreen` / `unset_fullscreen` | not executed; high | DBus.FullscreenToggleMaximizes | DBus.FixedFullscreenToggles |
| plugin-waylandtaskbar/dbusappslistener.cpp:10 | An unset `WAYLAND_DISPLAY` reads as empty, while the server falls back to `wayland` (dbus.c:38-39). | Variable unset: the client calls `lxqt.WindowsList.`, the server is `lxqt.WindowsList.wayland` | Both sides use the same default | not executed; medium | AppsListener.NamesDifferWhenUnset | AppsListener.FixedNamesAgree |
| plugin-backlight/sliderdialog.cpp:132-133 | Above 20 the slider scales `v*max/40` from 0, so the two halves do not meet at 20. | max = 30: slider 20 requests 20, slider 21 requests 15 | A map that rises with the slider and joins at 20, like `setBacklightStep` | not executed; medium | Slider.SliderDropsAtThirty | Slider.SliderFixedMonotone |
