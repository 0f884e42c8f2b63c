# almost-fullscreen: the window-fit decision, in Dafny

The almost-fullscreen GNOME Shell extension fits a window to the usable work area of its
monitor, less a uniform padding on each side. It does this to new windows and to the
focused window when the hotkey is pressed. This project models the decision the extension
makes each time it is triggered, as a pure function. The inputs are a snapshot of the
window, the work area, the padding and whether an actor was passed in. The output is the
ordered list of host calls the extension issues: `Unmaximize`, `Maximize`, `Ease(rect)` and
`MoveResizeFrame(rect)`. The defaulting of the configuration file is modelled too.

Modules:

- `Geometry`: integer rectangles, the fit target (the work area inset by the padding,
  with width and height floored at 100) and the animation target shifted by the
  decoration offset.
- `Config`: `_loadConfig`'s fallback to padding 8 and keybinding `<Super>f`. It includes
  the JavaScript `||` rule, under which a padding of 0 and an empty keybinding count as
  missing.
- `Host`: the window snapshot, the command datatype and the effect each command has on
  the snapshot. This effect is an assumption about the host. `ResizeWindow`'s own output
  depends on it through the unmaximize, and idempotence and the animation's landing
  position are stated through it.
- `Resizer`: `_resizeWindow` and `_doResize`, the hotkey and window-created triggers, and
  the lemmas relating them.

Points worth knowing:

- `_resizeWindow` unmaximizes a maximized window before `_doResize` reads the window
  again. `ResizeWindow` hands `DoResize` the window with `Host.Apply`'s assumed effect of
  `Unmaximize` already applied: both maximized flags cleared at once and the frame
  unmoved. Under that assumption the workaround test at extension.js:135 sees an
  unmaximized window, so the maximize/unmaximize cycle is issued on every resize path,
  and the skip test compares the frame as it was read.
- The early return at extension.js:126-132 comes after that unmaximize. A maximized
  window already on target therefore still gets `[Unmaximize]`. "No command at all"
  holds for windows that are not maximized (`PlacedWindowIsSkipped`).
- The frame and buffer rectangles in the snapshot are the ones `_doResize` reads
  (extension.js:116-117). `allowsResize` is read at extension.js:104, after the
  unmaximize at line 102. The model takes it as unchanged by that unmaximize and by the
  cycle at lines 136-137.
- On the window-created path, a window with no compositor actor gets no call: line 54
  throws before the handler and the timers exist.
- When the hotkey fires with no focused window, `focusedWindow.get_compositor_private()`
  throws before `_resizeWindow` is reached. `OnHotkey` gives no commands in that case.
- The padding is any integer. A negative padding in the file passes the `||` test and
  is used as written.

## Model

| member | source | states |
|---|---|---|
| Geometry.AtLeastMin | extension.js:123-124 | `Math.max(100, v)` is at least 100 and at least v, and is one of the two |
| Geometry.FitTarget | extension.js:121-124 | the target origin is the work-area origin plus the padding; width and height are at least 100; each is exactly the work-area length minus twice the padding when that is at least 100, and exactly 100 when it is at most 100 |
| Geometry.FitTargetInsideWorkArea | extension.js:121-124 | with non-negative padding and no clamping, the target lies inside the work area with a margin equal to the padding on all four sides |
| Geometry.FitTargetClamped | extension.js:123-124 | when the floor of 100 applies, the far edge is 100 past the padded origin, and it runs past the work area exactly when padding plus 100 exceeds the work-area length |
| Geometry.EaseTarget | extension.js:143-146 | the animation target has the target's size and is displaced from it by exactly the buffer-minus-frame offset |
| Config.Defaults | extension.js:8-9 | the defaults are padding 8 and keybinding `<Super>f` |
| Config.NumberOr | extension.js:21 | `v || d` on a number keeps a present non-zero value and gives d for a missing value or 0 |
| Config.StringOr | extension.js:22 | `v || d` on a string keeps a present non-empty value and gives d for a missing or empty value |
| Config.LoadConfig | extension.js:12-29 | an unreadable, malformed or null document gives both defaults; the loaded padding is never 0 (for integer fields) and the keybinding never empty; a truthy field is kept as written |
| Config.PaddingFallback | extension.js:21 | the loaded padding is 8 exactly when the field is missing, 0 or 8 |
| Config.KeybindingFallback | extension.js:22 | the loaded keybinding is `<Super>f` exactly when the field is missing, empty or `<Super>f` |
| Host.Apply | extension.js:134-152 | the assumed host effect of each call: unmaximize clears both flags, maximize sets both, the animation changes nothing, move-resize sets the frame and keeps the decoration offset |
| Host.ApplyAll | extension.js:134-152 | no sequence of calls changes the window's type, destroyed flag, resizability or actor |
| Host.ApplyAllAppend | extension.js:134-152 | carrying out two command lists one after the other is carrying out their concatenation |
| Resizer.Normalize | extension.js:101-102 | a window gets `Unmaximize` exactly when either maximized flag is set, and afterwards is not maximized with its frame unmoved |
| Resizer.Workaround | extension.js:134-138 | the maximize/unmaximize cycle is issued exactly when the window is not maximized at that point |
| Resizer.EaseStep | extension.js:140-150 | one animation is issued exactly when an actor is present; it keeps the target's size and is displaced from the target by the buffer-minus-frame offset |
| Resizer.DoResize | extension.js:110-156 | nothing is issued exactly when the frame already equals the target; otherwise a window not maximized at that point first gets `Maximize, Unmaximize`, an actor gets the offset `Ease` just before the end, and the last call is the move-resize to the target, with nothing else in between; an animation needs an actor |
| Resizer.ResizeWindow | extension.js:92-108 | null, non-NORMAL and destroyed windows get nothing; a maximized window gets `Unmaximize` first; a window that does not allow resize gets at most that; any move-resize targets the fit target and is last; no animation without an actor; at most five calls |
| Resizer.ResizeWindowCases | extension.js:92-156 | the complete list of sequences: nothing, the unmaximize alone, or the unmaximize if needed, then `Maximize, Unmaximize`, then `Ease` when an actor is present, then `MoveResizeFrame` to the target |
| Resizer.PlacedWindowIsSkipped | extension.js:126-132 | a window that is not maximized and already on target gets no command at all |
| Resizer.RunSettlesWindow | extension.js:134-152 | once the calls of one run are carried out, an eligible resizable window is on the target and not maximized |
| Resizer.RerunIsNoOp | extension.js:126-152 | running the procedure again on the window the first run left behind issues nothing, whatever actor either run had |
| Resizer.EaseMatchesFinalBuffer | extension.js:118-152 | the animation comes to rest at the origin the buffer has after the move-resize, with the size of the final frame |
| Resizer.OnWindowCreated | extension.js:52-63 | the window-created path never animates, because it passes no actor |
| Resizer.OnHotkey | extension.js:87-90 | with no focused window nothing is issued; an animation needs the focused window's actor |
| Resizer.HotkeyEasesIff | extension.js:87-90 | the hotkey animates exactly when the focused window is eligible, allows resize, is off target and has an actor |
| Resizer.CreatedRuns | extension.js:52-64 | one command list per call, and none for a window without a compositor actor; the first is `_resizeWindow(window)` with no actor, and no call on this path animates |
| Resizer.SettledStaysSettled | extension.js:126-132 | when nothing else changes the window between calls: once a call of the window-created path has nothing to do, no later call has anything to do |
| Resizer.RetriesAreNoOps | extension.js:54-64 | when nothing else changes the window between calls, every call after the first on the window-created path issues nothing |
| Resizer.ScenarioTargets | extension.js:121-124 | worked example: a 1920x1080 work area with padding 8 gives (8, 8, 1904, 1064), and an over-large padding clamps to 100 |
| Resizer.ScenarioOffset | extension.js:118-152 | worked example: a frame at (10, 10) with its buffer at (8, 8) is animated to (6, 6, 1904, 1064) and then moved to (8, 8, 1904, 1064) |
| Resizer.ScenarioPlaced | extension.js:126-132 | worked example: a window already at (8, 8, 1904, 1064) gets no command from the hotkey |

## Left out

- Reading `config.json`, UTF-8 decoding and `JSON.parse` (extension.js:14-19) are I/O. Their outcome is the `Config.Source` datatype.
- Config.LoadConfig: non-numeric or fractional `padding` values and non-string `keybinding` values are not modelled. Only integers and strings are, so `Math.round` is the identity here. Its "padding is never 0" clause depends on this. A fractional padding such as 0.4 is truthy, so it passes `||`, and `Math.round` then turns it into 0.
- `Math.round` on rectangle coordinates: host rectangles are whole pixels, so rounding is the identity.
- Resizer.CreatedRuns: between calls, only the plugin's own commands change the window. A client resize, a user move, destruction of the window or a change of work area between the first-frame call and the timers is not modelled. The retries exist for exactly those cases, so `RetriesAreNoOps` and `SettledStaysSettled` say nothing about them.
- The GLib timers with delays of 200, 400 and 600 ms, and the `window-created` and `first-frame` signal wiring (extension.js:50-66), are event-loop plumbing. Each trigger is one call of the pure function. `CreatedRuns` models the sequence of calls, not their timing.
- Keybinding registration, the settings-schema lookup and teardown (extension.js:31-45, 68-84, 158-165) are host calls with no logic of their own.
- The animation's duration and easing mode (extension.js:147-148) are cosmetic.
- `logError` and exceptions thrown by host calls inside the `try` blocks are not modelled. Such an exception would simply stop further commands.
- The host's real response to the calls is outside the source. `Host.Apply` is an assumed model of it. Idempotence and where the animation lands are stated through it. `ResizeWindow`'s own output depends on it too, through the assumed effect of `Unmaximize`.
- Resizer.ResizeWindow: assumes the host clears both maximized flags as soon as `unmaximize()` returns. If it did not, a window that starts maximized would still read as maximized at extension.js:135, and the source would skip the maximize/unmaximize cycle for it.
