# winbox-ts: a verified model of the window state engine

winbox-ts is an in-page window manager. Each `WinBox` is a floating window
with a position, a size and limits. It can be focused, hidden, minimized into
a dock at the bottom of the page, maximized, made fullscreen and closed, and it
is dragged and resized through nine pointer handles. The windows share
module-level state:

- the stack of minimized windows (`STACK_MIN`);
- the z-index counter;
- the focused window;
- the window that entered fullscreen;
- the size of the root element.

The package also ships a Vue composable, `useWindowControl`. It drives one
window component through the same states with a small state machine of its
own.

This project models that core in Dafny and proves what it promises:

- `js_numbers.dfy` (module `JsNumbers`): JavaScript numbers as exact reals, or
  NaN. It gives `Math.min`/`Math.max` with NaN, and `x | 0` as truncation
  toward zero followed by the 32-bit wrap.
- `coordinates.dfy` (module `Coordinates`): the coordinate resolver `parse`.
  Its string argument is a token (`"center"`, `"right"`/`"bottom"`, `"N%"`, any
  other string standing for its parsed numeric prefix, and the empty string).
- `construction.dfy` (module `Construction`): how a new window's insets,
  limits, size and position are resolved from its options and the root size.
- `dock.dfy` (module `Dock`): the dock layout of `update_min_stack` as a
  function of the stack, and `remove_min_stack`'s
  `splice(indexOf(self), 1)`.
- `gesture.dfy` (module `Gesture`): one pointer-move tick of a handle (deltas,
  clamps, the snap-out of a maximized window, commit flags, the anchor), and
  the decision of a press.
- `winbox.dfy` (module `WinBox`): the window record as a class `Window`.
  - The module globals and the elements' inline styles form a class
    `Manager`, whose methods are the window operations.
  - The closure state of a handle's listeners is a class `Handle`.
  - Hook calls are appended to a ghost journal (`Log`).
  - The normal geometry lives in the window's fields, while maximizing and
    docking write only the inline style. This is how `restore()` brings the
    old geometry back.
- `window_control.dfy` (module `WindowControl`): the composable.
  - Every operation is a function on a `Control` value, and a class
    `Controller` whose methods are proved to take its state to that function
    of the old state.
  - The window size and the element's fullscreen status are fields.

## Model

| member | source | states |
|---|---|---|
| JsNumbers.OrZero | src/utils/parse.ts:8-15 | the bitwise or with 0 gives a whole number in the signed 32-bit range, and NaN becomes 0 |
| JsNumbers.OrZeroIsTrunc | src/utils/parse.ts:8-15 | within the 32-bit range, the bitwise or with 0 is truncation toward zero |
| Coordinates.Parse | src/utils/parse.ts:1-22 | a number is returned as is; any other string gives its numeric prefix (NaN for none, or for the empty string); `"center"` and `"N%"` give a whole 32-bit number and never NaN; `"right"`/`"bottom"` give the value that puts the extent flush with the far edge, NaN exactly when an operand is NaN |
| Coordinates.ParseNumberUnchanged | src/utils/parse.ts:6-21 | a numeric argument is returned unchanged, whatever the base |
| Coordinates.ParseCenterHalves | src/utils/parse.ts:7-8 | `"center"` gives `trunc((base - center) / 2)`, which centres the extent to within a pixel |
| Coordinates.ParseEdges | src/utils/parse.ts:9-10 | `"right"` and `"bottom"` give `base - center` |
| Coordinates.ParsePercent | src/utils/parse.ts:12-15 | `"N%"` gives `trunc(base / 100 * N)` |
| Coordinates.ParseOtherStrings | src/utils/parse.ts:16-18 | any other string gives its parsed numeric prefix, so `"120px"` and `"120"` both give 120 |
| Coordinates.ParseTotal | src/utils/parse.ts:12-18 | the resolver is total: a string without a numeric prefix gives NaN; `"center"` without a centred extent gives 0; `"right"` without one gives NaN; a percentage of NaN gives 0 |
| Coordinates.ResolverExamples | src/winbox.ts:608-625 | `"50%"` of 200 is 100; a 40-wide extent in 200 centres at 80 and ends flush at 160; 75 stays 75 |
| Construction.HeaderOf | src/winbox.ts:153 | the header height is the option when it is given and non-zero, else 35 |
| Construction.Inset | src/winbox.ts:193-196 | an omitted or falsy inset is 0 |
| Construction.MaxExtent | src/winbox.ts:201-206 | an omitted maximum is the viewport left by the insets |
| Construction.MinExtent | src/winbox.ts:207-212 | an omitted minimum is the default (150 wide, one header high) |
| Construction.AutoExtent | src/winbox.ts:214-231 | an auto-sized extent is at least the minimum; it is at most the maximum when the limits do not cross; an in-range measured size is kept; it is NaN exactly when a limit is |
| Construction.DefaultExtent | src/winbox.ts:232-238 | an unsized extent is a whole number, `trunc(max(maximum / 2, minimum))` |
| Construction.Extent | src/winbox.ts:214-238 | autosize uses the measured size; an omitted size uses the default extent |
| Construction.Position | src/winbox.ts:241-251 | a modal window's coordinate is the `"center"` resolution; an omitted coordinate is the inset |
| Construction.ResolveGeometryDefaults | src/winbox.ts:193-251 | the defaults of construction, option by option: insets, maximum, minimum, whole-pixel default size, clamped autosize, position on the insets |
| Construction.ModalIsCentred | src/winbox.ts:241-245 | a modal window is centred in its viewport to within a pixel |
| Construction.CentredWindowExample | src/winbox.ts:193-251 | a 250 by 200 centred window in a 1000 by 800 root lands at (375, 300); with no options a window is 500 by 400 at (0, 0) with minimum 150 by 35 |
| Construction.ResolveGeometry | src/winbox.ts:193-251 | defines the constructor's resolution of insets, limits, size and position; its properties are stated by `ResolveGeometryDefaults`, `ModalIsCentred` and `CentredWindowExample` |
| Dock.GroupCountPositive | src/winbox.ts:697-706 | a group's count is positive exactly when some stack entry has that key |
| Dock.GroupPositionBound | src/winbox.ts:708-722 | a docked window's position in its group is below the group's size |
| Dock.GroupPositionsIncrease | src/winbox.ts:708-722 | same-group windows get strictly increasing positions in stack order, so no two share a slot |
| Dock.SlotWidth | src/winbox.ts:711-714 | a slot is at most 250 wide, and a group's slots fit in the viewport left by the insets |
| Dock.SlotAt | src/winbox.ts:708-722 | a docked window sits one header above the bottom inset, one header high |
| Dock.LayoutAt | src/winbox.ts:708-722 | the layout gives the i-th stack entry the slot of its group position |
| Dock.PushKeepsOtherGroups | src/winbox.ts:693-724 | pushing a window onto the stack leaves every slot of the other groups unchanged |
| Dock.PushNarrowsOwnGroup | src/winbox.ts:693-724 | pushing a window keeps each position in its group, adds one to the group size, and only narrows the group's slots |
| Dock.SlotsFitViewport | src/winbox.ts:711-722 | before truncation, slot p of a group spans `[left + p*w, left + (p+1)*w]`, inside the viewport |
| Dock.SlotOf | src/winbox.ts:708-722 | a docked window's element is one header high, sitting on the bottom inset; its x and its width (one pixel more than a slot) are the exact ones rounded down to whole pixels |
| Dock.Layout | src/winbox.ts:708-722 | the layout has one slot per stack entry; `LayoutAt` states which slot |
| Dock.TwoWindowDock | src/winbox.ts:693-724 | two windows of one group in a 1000-wide root have slot width 250 and are each shown 251 wide, a one-pixel overlap, at x 0 and 250 |
| Dock.CountGroups | src/winbox.ts:697-706 | the first loop maps every key of the stack to its member count, with running position 0 |
| Dock.SpliceOne | src/winbox.ts:686 | defines `splice(i, 1)`, a start of -1 counting from the end; `RemoveIsSplice` and `RemoveAbsentDropsLast` state its effect |
| Dock.RemoveFromStack | src/winbox.ts:685-691 | defines `splice(indexOf(self), 1)`; `RemoveIsSplice`, `RemoveKeepsOthers`, `RemoveAfterPush` and `RemoveAbsentDropsLast` state its properties |
| Dock.IndexOf | src/winbox.ts:686 | `indexOf` is the first index of the element, or -1 exactly when it is absent |
| Dock.RemoveIsSplice | src/winbox.ts:686 | removing a member deletes exactly one entry, at its position |
| Dock.RemoveKeepsOthers | src/winbox.ts:685-691 | removing a member of a stack without repeats keeps exactly the other windows, still without repeats |
| Dock.RemoveAfterPush | src/winbox.ts:685-691 | removing the window just pushed gives the stack back |
| Dock.RemoveAbsentDropsLast | src/winbox.ts:686 | unguarded, removing an absent window would drop the last docked window (`splice(-1, 1)`) |
| Gesture.ClampWidth | src/winbox.ts:848-854 | a resized width is at least the minimum, and above it at most the maximum and inside the right inset; a width within all limits is kept |
| Gesture.ClampHeight | src/winbox.ts:856-862 | the same for the height against the bottom inset |
| Gesture.ClampX | src/winbox.ts:877-885 | a moved x never crosses the left inset and stays inside the right one, or with overflow keeps 30 pixels visible on either side; an x within the viewport is kept |
| Gesture.ClampY | src/winbox.ts:892-902 | a moved y never crosses the top inset; above it, the window (or, with overflow, its header) stays inside the bottom |
| Gesture.SnapX | src/winbox.ts:869-875 | a maximized window dragged in the left third snaps to the left inset, in the right third flush with the right inset, in the middle third centred |
| Gesture.MoveTick | src/winbox.ts:800-919 | a resize or move is committed on an axis exactly when that quantity changed; the anchor moves only on an axis that committed; a handle touches only its own edges; a no-move drag changes nothing; how the pointer's offset is applied is stated by the four `Tick…AppliesOffset` lemmas |
| Gesture.TickWidthAppliesOffset | src/winbox.ts:808-854 | an east-edge tick widens the window by the horizontal offset, a west-edge tick narrows it by that offset, and either is then clamped |
| Gesture.TickXAppliesOffset | src/winbox.ts:808-885 | a drag or a west-edge tick moves the left edge by the horizontal offset, then clamps it; a maximized window is first snapped out under the pointer |
| Gesture.TickHeightAppliesOffset | src/winbox.ts:808-862 | a south-edge tick makes the window taller by the vertical offset, a north-edge tick shorter by it, and either is then clamped |
| Gesture.TickYAppliesOffset | src/winbox.ts:808-902 | a drag or a north-edge tick moves the top edge by the vertical offset, then clamps it; a maximized window is first snapped out to the top inset |
| Gesture.TickRespectsLimits | src/winbox.ts:848-902 | after a tick, the touched extents and coordinates respect the min/max, inset and viewport clamps |
| Gesture.DragInRangeMovesByOffset | src/winbox.ts:819-902 | a drag whose target lies inside the viewport moves the window by exactly the pointer's offset and keeps its size |
| Gesture.EastInRangeGrowsByOffset | src/winbox.ts:826-854 | an east-edge tick within all limits widens the window by exactly the horizontal offset |
| Gesture.WestInRangeMovesLeftEdge | src/winbox.ts:829-885 | a west-edge tick within all limits moves the left edge by exactly the horizontal offset and keeps the right edge in place |
| Gesture.SouthInRangeGrowsByOffset | src/winbox.ts:837-862 | a south-edge tick within all limits makes the window taller by exactly the vertical offset |
| Gesture.NorthInRangeMovesTopEdge | src/winbox.ts:840-902 | a north-edge tick within all limits moves the top edge by exactly the vertical offset and keeps the bottom edge in place |
| Gesture.DragAtRestIsStill | src/winbox.ts:800-919 | a drag with the pointer at rest, of a window inside the viewport, changes and commits nothing |
| Gesture.Press | src/winbox.ts:754-798 | a title-bar press on a minimized window restores it and starts nothing; a second title-bar press within 300 ms toggles maximize unless `no-max` is set; otherwise tracking starts on a window that is not minimized; only counted presses move the double-click clock |
| WinBox.DockSlots | src/winbox.ts:693-724 | the two loops compute exactly the layout of the whole stack |
| WinBox.NextSlot | src/winbox.ts:708-723 | one step of the second loop yields the i-th window's slot and advances its group's running position by one |
| WinBox.DockedAt | src/winbox.ts:708-723 | placing the docked windows in turn gives each its own slot's style and leaves every other element alone |
| WinBox.DockStylesShowSlots | src/winbox.ts:693-724 | after a dock layout every docked element shows its slot, and windows off the stack keep their styles |
| WinBox.RedockForgets | src/winbox.ts:685-724 | laying out the dock with a window pushed, then again after it left, gives every other element the style of the second layout alone |
| WinBox.Handle.constructor | src/winbox.ts:730-736 | a handle starts with no tracking, anchor (0, 0) and last press time 0 |
| WinBox.Manager.constructor | src/winbox.ts:21-31 | the shared state starts with no windows, an empty stack, no focus, no fullscreen window and the z-index counter at 10 |
| WinBox.Manager.ResizeWindow | src/winbox.ts:522-540 | without a width the element shows the stored size; with one the stored size becomes the arguments (an omitted height is 0), shown raised to the minimum; with `skip_update` only the element changes; `onresize` is called once |
| WinBox.Manager.MoveWindow | src/winbox.ts:506-520 | without an x the element shows the stored position; with one a falsy coordinate falls back to the inset and the result is stored and shown; with `skip_update` only the element changes; `onmove` is called once |
| WinBox.Manager.Focus | src/winbox.ts:348-362 | `focus(false)` is `blur()`; refocusing is a no-op; otherwise the previously focused window is blurred first, and the window takes `++index_counter`, above every other window's index, and the focus, calling `onblur` then `onfocus` |
| WinBox.Manager.Blur | src/winbox.ts:364-375 | `blur(false)` is `focus()`, with all of its effects: unless the window already has the focus, the previous one is blurred and the window takes `++index_counter`, above every other window, with `onblur` then `onfocus`; otherwise only the focused window reacts, losing the focus with one `onblur`, and the z-index is untouched |
| WinBox.Manager.Hide | src/winbox.ts:377-387 | the window ends hidden (shown for `hide(false)`); `onhide` fires only when it was visible |
| WinBox.Manager.Show | src/winbox.ts:389-399 | the window ends visible (hidden for `show(false)`); `onshow` fires only when it was hidden |
| WinBox.Manager.CancelFullscreen | src/winbox.ts:960-966 | native fullscreen is exited, and the result says whether the document was in it |
| WinBox.Manager.UpdateMinStack | src/winbox.ts:693-724 | every docked element shows its slot of the layout of the whole stack, with `onresize` and `onmove` per docked window; no stored geometry and no other element changes |
| WinBox.Manager.PlaceInSlots | src/winbox.ts:708-723 | the second loop shows each docked window in its slot, in stack order, with its hooks |
| WinBox.Manager.PlaceInSlot | src/winbox.ts:715-721 | one docked window's element shows its slot, with `onresize` and `onmove`; the stored geometry is untouched |
| WinBox.Manager.Redraw | src/winbox.ts:429 | `resize().move()` shows the stored geometry again, with `onresize` and `onmove` |
| WinBox.Manager.RemoveMinStack | src/winbox.ts:685-691 | the window leaves the stack by `splice(indexOf)`, `min` is cleared and the rest of the dock is laid out again; the stack invariants are kept |
| WinBox.Manager.Restore | src/winbox.ts:423-439 | native fullscreen is exited when some window entered it; a minimized window is undocked and a maximized one unmaximized, and either shows its normal geometry, with `onrestore`; a window in neither state is untouched; the normal geometry never changes |
| WinBox.Manager.RestoreMinimized | src/winbox.ts:427-431 | the docked case of `restore()`: the window leaves the stack, the dock is laid out again, the normal geometry is shown and `onrestore` fires |
| WinBox.Manager.Undock | src/winbox.ts:428-429 | `remove_min_stack(this)` then `resize().move()`: off the stack, the rest of the dock relaid, the normal geometry shown |
| WinBox.Manager.RestoreMaximized | src/winbox.ts:432-437 | the maximized case of `restore()`: `max` is cleared, the normal geometry is shown and `onrestore` fires |
| WinBox.Manager.Minimize | src/winbox.ts:401-421 | `minimize(false)` is `restore()`; otherwise `max` is cleared and, only when not already minimized, the window is pushed once onto the stack, the dock is laid out again and `onminimize` fires |
| WinBox.Manager.Dock | src/winbox.ts:412-419 | the pushing step of `minimize()`: stack plus the window, dock relaid, `onminimize` |
| WinBox.Manager.Maximize | src/winbox.ts:441-462 | `maximize(false)` is `restore()`; a docked window leaves the dock; unless already maximized, the element covers the viewport left by the insets, the normal geometry is kept and `onmaximize` fires |
| WinBox.Manager.Expand | src/winbox.ts:451-460 | the maximizing step: only the element changes, to the inset viewport, and `onmaximize` fires |
| WinBox.Manager.ShowMaximized | src/winbox.ts:453-457 | the element covers the viewport left by the insets, from the top-left inset; the stored geometry is untouched |
| WinBox.Manager.Fullscreen | src/winbox.ts:464-485 | a docked window leaves the dock and shows its normal geometry; then either native fullscreen is exited (and `fullscreen(false)` goes on to `restore()`), or the window becomes the fullscreen window with `onfullscreen` when the browser offers the request |
| WinBox.Manager.UndockThenFullscreen | src/winbox.ts:464-485 | the docked case of `fullscreen()`: undock, show the normal geometry, then the fullscreen step |
| WinBox.Manager.EnterOrExitFullscreen | src/winbox.ts:469-484 | the fullscreen step for a window that is not docked, leaving the stack alone |
| WinBox.Manager.EnterFullscreen | src/winbox.ts:470-480 | the granted request: the document is fullscreen, the window is `is_fullscreen` and `full`, and `onfullscreen` fires |
| WinBox.Manager.Close | src/winbox.ts:487-504 | `onclose(force)` is called first; a veto returns true and changes nothing else; otherwise a docked window leaves the dock, the window and its element are gone, the focus is dropped if it had it, and the result is false |
| WinBox.Manager.Unmount | src/winbox.ts:494-502 | the element leaves the document and a focus on the window is dropped |
| WinBox.Manager.ViewportResized | src/winbox.ts:600-603 | the root size is measured again and the dock is laid out again in it |
| WinBox.Manager.Open | src/winbox.ts:126-294 | a new window is registered in the requested state: maximized, else minimized (pushed on the stack), else normal; hidden or focused |
| WinBox.Manager.Initialize | src/winbox.ts:272-289 | the new window is maximized, else minimized and pushed on the stack, else normal; then hidden, or shown and focused |
| WinBox.Manager.Mount | src/winbox.ts:193-251 | the new window's normal geometry, limits, insets, header and classes are the resolved ones, in no state yet |
| WinBox.Manager.Settle | src/winbox.ts:272-278 | the initial status: the element is maximized, docked, or shows the normal geometry |
| WinBox.Manager.Reveal | src/winbox.ts:280-289 | a hidden window stays unfocused; a shown one is focused above every other window, and a given `index` replaces its z-index and raises the counter to it |
| WinBox.Manager.PointerDown | src/winbox.ts:754-798 | the window is focused, then the press decision is carried out: restore a docked window, toggle maximize, or start tracking from the pointer |
| WinBox.Manager.StartGesture | src/winbox.ts:758-797 | the press decision after the focus, with the double-click clock updated |
| WinBox.Manager.PointerMove | src/winbox.ts:800-919 | the tick's geometry becomes the normal geometry; a changed size is shown with `onresize`; a changed position is shown with `onmove`, after a maximized window was restored (which exits native fullscreen when some window entered it); the anchor moves on changed axes |
| WinBox.Manager.ApplyTick | src/winbox.ts:864-918 | the effect of a tick: the new normal geometry, the element's size and position shown on the changed axes, the hooks in order, the native fullscreen exited when a maximized window moves, the new anchor |
| WinBox.Manager.Commit | src/winbox.ts:864-910 | only changed quantities are committed: `resize()` when the size changed, `move()` (after `restore()` of a maximized window, which exits native fullscreen) when the position changed |
| WinBox.Manager.CommitMove | src/winbox.ts:904-910 | a maximized window is restored first (native fullscreen exited, normal geometry shown, `onrestore`), then `move()` shows the position with `onmove` |
| WinBox.Manager.PointerUp | src/winbox.ts:921-943 | releasing the pointer ends the tracking |
| WinBox.Manager.MaximizeThenRestore | src/winbox.ts:423-462 | maximizing a normal window then restoring it keeps its normal geometry and shows it again, as a plain redraw would |
| WinBox.Manager.MinimizeThenRestore | src/winbox.ts:401-439 | minimizing a normal window then restoring it puts the stack back as it was, and the dock shows the layout of that stack |
| WindowControl.Clamp | src/composables/useWindowControl.ts:167-180 | `min(max, max(min, v))` is at most the maximum, at least the minimum when they do not cross, keeps an in-range value, and gives the maximum when they cross |
| WindowControl.Saved | src/composables/useWindowControl.ts:128-135 | defines `save` on a `Control` value; `SaveCopiesNormalGeometry` states its properties |
| WindowControl.Moved | src/composables/useWindowControl.ts:137-152 | defines `move` on a `Control` value; `MoveReportsChange` states its properties |
| WindowControl.Resized | src/composables/useWindowControl.ts:154-192 | defines `resize` on a `Control` value; `ResizeReportsChange` and `ResizeClamps` states its properties |
| WindowControl.Focused | src/composables/useWindowControl.ts:194-201 | defines `focus` on a `Control` value; `FocusEmitsOnChange` states its properties |
| WindowControl.Blurred | src/composables/useWindowControl.ts:203-210 | defines `blur` on a `Control` value; `FocusEmitsOnChange` states its properties |
| WindowControl.Minimized | src/composables/useWindowControl.ts:213-228 | defines `minimize` on a `Control` value; `MinimizeFromNormal`, `ToggleRoutesThroughRestore` and `MinimizeToggleRoundTrip` states its properties |
| WindowControl.Maximized | src/composables/useWindowControl.ts:230-245 | defines `maximize` on a `Control` value; `MaximizeFromNormal`, `ToggleRoutesThroughRestore` and `MaximizeToggleRoundTrip` states its properties |
| WindowControl.Fullscreened | src/composables/useWindowControl.ts:247-259 | defines `fullscreen` on a `Control` value; `ToggleRoutesThroughRestore` states its properties |
| WindowControl.Restored | src/composables/useWindowControl.ts:261-276 | defines `restore` on a `Control` value; `RestoreReturnsToSaved` states its properties |
| WindowControl.Closed | src/composables/useWindowControl.ts:278-281 | defines `close` on a `Control` value; `Controller.Close` states its properties |
| WindowControl.Rescaled | src/composables/useWindowControl.ts:283-292 | defines the window-size watcher on a `Control` value; `RescaleKeepsSnapshot` states its properties |
| WindowControl.EnterMin | src/composables/useWindowControl.ts:220-226 | defines the minimizing part of `minimize` (save, `"min"`, resize, move, emit); `MinimizeFromNormal` states its effect |
| WindowControl.EnterMax | src/composables/useWindowControl.ts:237-243 | defines the maximizing part of `maximize`; `MaximizeFromNormal` states its effect |
| WindowControl.EnterFull | src/composables/useWindowControl.ts:254-258 | defines the fullscreen part of `fullscreen`: save, `"full"`, the element fullscreen, `fullscreen` emitted |
| WindowControl.MoveReportsChange | src/composables/useWindowControl.ts:137-152 | `move` ends at the requested point, an omitted coordinate keeping its value; it emits `move` exactly when the position changed and otherwise changes nothing |
| WindowControl.ResizeReportsChange | src/composables/useWindowControl.ts:154-192 | `resize` commits each given extent (or the current one) clamped to its limits, changes nothing else, and emits `resize` exactly when the size changed |
| WindowControl.ResizeClamps | src/composables/useWindowControl.ts:167-180 | with limits that do not cross, the size stays within them and an in-range request is taken as is |
| WindowControl.SaveCopiesNormalGeometry | src/composables/useWindowControl.ts:128-135 | `save` always copies the focus, but the position and size only in status `"normal"` |
| WindowControl.FocusEmitsOnChange | src/composables/useWindowControl.ts:194-210 | `focus` and `blur` emit only on an actual change of the focus, then save |
| WindowControl.MinimizeFromNormal | src/composables/useWindowControl.ts:213-228 | from `"normal"`, `minimize` saves the geometry, sets `"min"`, resizes to `(0, minHeight)` as clamped by `resize`'s defaults, moves to `(0, windowHeight - minHeight)` and emits `minimize` last |
| WindowControl.MaximizeFromNormal | src/composables/useWindowControl.ts:230-245 | from `"normal"`, whatever the window size, `maximize` saves, sets `"max"`, fills the window from `(0, 0)` and emits `maximize` last |
| WindowControl.RestoreReturnsToSaved | src/composables/useWindowControl.ts:261-276 | `restore` leaves fullscreen, goes back to the saved position and the saved size (clamped), sets `"normal"`, keeps the snapshot and emits `restore` last |
| WindowControl.ToggleRoutesThroughRestore | src/composables/useWindowControl.ts:213-259 | without `force`, a window that is not `"normal"` is restored first; it stops there when it was already in that status (for fullscreen: when the element is fullscreen), and otherwise goes on |
| WindowControl.MinimizeToggleRoundTrip | src/composables/useWindowControl.ts:213-276 | minimizing twice brings a normal window with an in-limits size back to exactly its old state |
| WindowControl.MaximizeToggleRoundTrip | src/composables/useWindowControl.ts:230-276 | maximizing twice brings a normal window with an in-limits size back to exactly its old state |
| WindowControl.RescaleKeepsSnapshot | src/composables/useWindowControl.ts:283-292 | a change of the window size re-lays out a maximized or minimized window in the same status without touching the saved geometry, and leaves a normal or fullscreen window alone |
| WindowControl.Controller.constructor | src/composables/useWindowControl.ts:64-92 | both refs start blank; `minHeight` defaults to 100 |
| WindowControl.Controller.Save | src/composables/useWindowControl.ts:128-135 | the new state is `save` of the old |
| WindowControl.Controller.Move | src/composables/useWindowControl.ts:137-152 | the new state is `move` of the old, and the flags say which coordinate changed |
| WindowControl.Controller.Resize | src/composables/useWindowControl.ts:154-192 | the new state is `resize` of the old under the given or default limits, and the flags say which extent changed |
| WindowControl.Controller.Focus | src/composables/useWindowControl.ts:194-201 | the new state is `focus` of the old |
| WindowControl.Controller.Blur | src/composables/useWindowControl.ts:203-210 | the new state is `blur` of the old |
| WindowControl.Controller.Restore | src/composables/useWindowControl.ts:261-276 | the new state is `restore` of the old |
| WindowControl.Controller.Minimize | src/composables/useWindowControl.ts:213-228 | the new state is `minimize(force)` of the old, routed through `restore` |
| WindowControl.Controller.EnterMinimized | src/composables/useWindowControl.ts:220-226 | the new state is the minimizing part of `minimize` applied to the old |
| WindowControl.Controller.Maximize | src/composables/useWindowControl.ts:230-245 | the new state is `maximize(force)` of the old, routed through `restore` |
| WindowControl.Controller.EnterMaximized | src/composables/useWindowControl.ts:237-243 | the new state is the maximizing part of `maximize` applied to the old |
| WindowControl.Controller.Fullscreen | src/composables/useWindowControl.ts:247-259 | the new state is `fullscreen(force)` of the old, routed through `restore` |
| WindowControl.Controller.Close | src/composables/useWindowControl.ts:278-281 | the new state is `close` of the old: a save, then `close` emitted |
| WindowControl.Controller.WindowResized | src/composables/useWindowControl.ts:283-292 | the new state is the rescaled one: the watcher re-runs `maximize(true)` or `minimize(true)` on a change |
| WindowControl.Controller.NativeFullscreenLeft | src/composables/useWindowControl.ts:72-78 | leaving fullscreen outside the composable changes only the fullscreen status |

## Left out

- DOM chrome is not modelled because it is rendering only: titles, icons, backgrounds, URLs, `mount`/`unmount` of content, controls, class names, `dom.title`, the `focus`/`min`/`max`/`hide` classes. The classes `no-move` and `no-max` are fixed booleans chosen at construction.
- src/helper.ts and src/template.ts are not part of this model. They are thin wrappers over the DOM.
- Native fullscreen is an oracle. `nativeFullscreen` is the document's state and `canFullscreen` says whether the request exists; the prefix probing of `setup` and `has_fullscreen` are not modelled.
- WinBox.Manager.EnterFullscreen: the fullscreen request is assumed to succeed at once, whereas the browser may refuse it.
- The listener plumbing is not modelled: `register`, `addWindowListener`'s listener attachment, the `wb-lock` class, touch events and the `requestAnimationFrame` loop (`USE_RAF` is false). `Date.now()` is the `now` parameter of a press and the pointer position is a parameter of a move.
- The autosize measurement (`clientWidth`/`clientHeight`) is the `clientW`/`clientH` parameter of `Open`.
- IEEE floating point is not modelled: numbers are exact reals. The `parseFloat` grammar is replaced by the argument token, whose `Plain` case carries the parsed prefix.
- The constructor's `params` given as a string with a separate title is not modelled, and neither is `id`, `root`, `template`, `html`, `url` or `oncreate`.
- move and resize with string arguments are not modelled: every internal caller passes numbers, and the arguments are `Option<real>`.
- Hook bodies are not modelled: they are user code. The journal records which hook was called on which window, not its arguments (`onmove`/`onresize` always receive the stored geometry, which the contracts state), and re-entrant calls from a hook are not modelled.
- WinBox.Manager.Open: the resolved geometry must be finite. A NaN produced by a malformed option is modelled in the resolution, but not in the window's fields.
- WinBox.Manager.Open: the contract states the new window's status, visibility, focus and stack. Its geometry and limits are stated by `Mount`, and its element by `Settle`.
- Operations on a closed window (whose element is gone) are outside the model: every manager method requires an open window.
- WinBox.Manager.RemoveMinStack clears `min` before laying out the dock again, whereas the source clears it after. `update_min_stack` does not read `min`, so the order cannot be observed.
- WinBox.Manager.Dock sets `min` before the relayout, whereas the source sets it after (src/winbox.ts:414-417). `update_min_stack` does not read `min`, so the order cannot be observed.
- The Vue and vueuse plumbing is not modelled: `ref`, `computed`, `useWindowSize`, `useFullscreen` and `watch`. The window size and fullscreen status are `Controller` fields, and the watch is the `WindowResized` method.
- WindowControl.Controller.Fullscreen: the `await` points are not modelled, so a fullscreen request is assumed granted before the next operation, and interleavings of the async operations are ignored.
- WindowControl.Controller.Resize: the source's parameter check `typeof width === "number"` is modelled as `Option`; a NaN argument is not modelled.
- The composable's commented-out `minWidth`/`maxWidth`/`maxHeight` parameters are not modelled: the source ignores them.
- `main.ts`, `vite.config.ts`, `src/components/types.ts` and `src/components/constants.ts` are not part of this model: they hold a demo, build settings and declarations.
