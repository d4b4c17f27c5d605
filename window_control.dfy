/**
  The Vue composable that drives a window component: a small state machine
  over the window's `state` (focus, status, position, size) and a `saved`
  snapshot of it, emitting an event for every change it makes. The window size
  and the fullscreen status are reactive values the composable watches; here
  they are fields that the operations read and that `WindowResized` and
  `NativeFullscreenLeft` change.
 */
module WindowControl {
  import opened JsNumbers

  /** `"normal"`, `"min"`, `"max"` and `"full"`. */
  datatype Status = Normal | Min | Max | Full

  datatype Position = Position(x: real, y: real)

  datatype Size = Size(width: real, height: real)

  datatype WindowState = WindowState(focused: bool, status: Status, position: Position, size: Size)

  /** The initial value of both `state` and `saved`. */
  const Blank: WindowState := WindowState(false, Normal, Position(0.0, 0.0), Size(0.0, 0.0))

  /** What `emit` is called with. */
  datatype Emit =
    | OnMove(x: real, y: real)
    | OnResize(width: real, height: real)
    | OnFocus | OnBlur | OnMinimize | OnMaximize | OnFullscreen | OnRestore | OnClose

  /** The size limits of one `resize` call. */
  datatype Limits = Limits(minWidth: real, minHeight: real, maxWidth: real, maxHeight: real)

  /**
    Everything the composable reads and writes: its two refs, the window size,
    whether the element is fullscreen, the `minHeight` parameter and the
    events emitted so far.
   */
  datatype Control = Control(
    state: WindowState, saved: WindowState,
    windowWidth: real, windowHeight: real, fullscreen: bool,
    minHeight: real, emitted: seq<Emit>)

  const DefaultMinWidth: real := 200.0
  const DefaultMinHeight: real := 100.0

  /** `Math.min(max, Math.max(min, v))`: when the limits cross, the maximum wins. */
  function Clamp(v: real, lo: real, hi: real): (r: real)
    ensures r <= hi
    ensures lo <= hi ==> lo <= r
    ensures lo <= v <= hi ==> r == v
    ensures v < lo <= hi ==> r == lo
    ensures hi < lo ==> r == hi
  {
    RealMin(hi, RealMax(lo, v))
  }

  /** The limits of a `resize` call: 200 by 100 at least, the window size at most, unless given. */
  function ResizeLimits(c: Control, minWidth: Option<real>, minHeight: Option<real>,
                        maxWidth: Option<real>, maxHeight: Option<real>): Limits
  {
    Limits(minWidth.GetOr(DefaultMinWidth), minHeight.GetOr(DefaultMinHeight),
           maxWidth.GetOr(c.windowWidth), maxHeight.GetOr(c.windowHeight))
  }

  /** The limits of the internal `resize(width, height)` calls. */
  function DefaultLimits(c: Control): Limits {
    ResizeLimits(c, None, None, None, None)
  }

  /** Where `move(x, y)` puts the window: an omitted coordinate keeps its value. */
  function MoveTarget(p: Position, x: Option<real>, y: Option<real>): Position {
    Position(x.GetOr(p.x), y.GetOr(p.y))
  }

  /** The size `resize(width, height, …)` commits: each extent, or the current one, clamped. */
  function ResizeTarget(s: Size, width: Option<real>, height: Option<real>, lim: Limits): Size {
    Size(Clamp(width.GetOr(s.width), lim.minWidth, lim.maxWidth),
         Clamp(height.GetOr(s.height), lim.minHeight, lim.maxHeight))
  }

  function Emitted(c: Control, e: Emit): Control {
    c.(emitted := c.emitted + [e])
  }

  function WithStatus(c: Control, status: Status): Control {
    c.(state := c.state.(status := status))
  }

  /** `save()`. */
  function Saved(c: Control): Control {
    var s := c.state;
    c.(saved := if s.status == Normal then c.saved.(focused := s.focused, position := s.position, size := s.size)
                else c.saved.(focused := s.focused))
  }

  /** `move(x, y)`: a changed position is stored and emitted. */
  function Moved(c: Control, x: Option<real>, y: Option<real>): Control {
    var p := MoveTarget(c.state.position, x, y);
    if p != c.state.position then Emitted(c.(state := c.state.(position := p)), OnMove(p.x, p.y)) else c
  }

  /** `resize(width, height, …)`: a changed size is stored and emitted. */
  function Resized(c: Control, width: Option<real>, height: Option<real>, lim: Limits): Control {
    var s := ResizeTarget(c.state.size, width, height, lim);
    if s != c.state.size then Emitted(c.(state := c.state.(size := s)), OnResize(s.width, s.height)) else c
  }

  /** `focus()`. */
  function Focused(c: Control): Control {
    Saved(if !c.state.focused then Emitted(c.(state := c.state.(focused := true)), OnFocus) else c)
  }

  /** `blur()`. */
  function Blurred(c: Control): Control {
    Saved(if c.state.focused then Emitted(c.(state := c.state.(focused := false)), OnBlur) else c)
  }

  /** `restore()`: leave fullscreen, go back to the saved geometry, status `"normal"`. */
  function Restored(c: Control): Control {
    var c1 := if c.fullscreen then c.(fullscreen := false) else c;
    var c2 := Resized(c1, Some(c.saved.size.width), Some(c.saved.size.height), DefaultLimits(c1));
    var c3 := Moved(c2, Some(c.saved.position.x), Some(c.saved.position.y));
    Emitted(WithStatus(c3, Normal), OnRestore)
  }

  /** The minimizing part of `minimize`: save, status `"min"`, a strip at the bottom left. */
  function EnterMin(c: Control): Control {
    var c1 := WithStatus(Saved(c), Min);
    var c2 := Resized(c1, Some(0.0), Some(c.minHeight), DefaultLimits(c1));
    var c3 := Moved(c2, Some(0.0), Some(c.windowHeight - c.minHeight));
    Emitted(c3, OnMinimize)
  }

  /** The maximizing part of `maximize`: save, status `"max"`, the whole window. */
  function EnterMax(c: Control): Control {
    var c1 := WithStatus(Saved(c), Max);
    var c2 := Resized(c1, Some(c.windowWidth), Some(c.windowHeight), DefaultLimits(c1));
    var c3 := Moved(c2, Some(0.0), Some(0.0));
    Emitted(c3, OnMaximize)
  }

  /** The fullscreen part of `fullscreen`: save, status `"full"`, the element enters fullscreen. */
  function EnterFull(c: Control): Control {
    Emitted(WithStatus(Saved(c), Full).(fullscreen := true), OnFullscreen)
  }

  /**
    `minimize(force)`: unless forced, a window that is not `"normal"` is
    restored first, and a minimized one stays restored.
   */
  function Minimized(c: Control, force: bool): Control {
    if c.state.status != Normal && !force then
      var r := Restored(c);
      if c.state.status == Min then r else EnterMin(r)
    else EnterMin(c)
  }

  /** `maximize(force)`, routed like `minimize`. */
  function Maximized(c: Control, force: bool): Control {
    if c.state.status != Normal && !force then
      var r := Restored(c);
      if c.state.status == Max then r else EnterMax(r)
    else EnterMax(c)
  }

  /** `fullscreen(force)`, routed like `minimize` but on whether the element is fullscreen. */
  function Fullscreened(c: Control, force: bool): Control {
    if c.state.status != Normal && !force then
      var r := Restored(c);
      if c.fullscreen then r else EnterFull(r)
    else EnterFull(c)
  }

  /** `close()`. */
  function Closed(c: Control): Control {
    Emitted(Saved(c), OnClose)
  }

  /** The window becomes `width` by `height`; the watcher runs when that is a change. */
  function Rescaled(c: Control, width: real, height: real): Control {
    var c1 := c.(windowWidth := width, windowHeight := height);
    if width == c.windowWidth && height == c.windowHeight then c1
    else match c1.state.status
      case Max => Maximized(c1, true)
      case Min => Minimized(c1, true)
      case _ => c1
  }

  // Properties of the operations.

  /**
    `move` ends at the requested point, an omitted coordinate keeping its
    value; it emits one `move` event exactly when the position changed, and
    changes nothing else.
   */
  lemma MoveReportsChange(c: Control, x: Option<real>, y: Option<real>)
    ensures var r := Moved(c, x, y); var p := c.state.position;
      && r.state.position == Position(if x.Some? then x.value else p.x, if y.Some? then y.value else p.y)
      && r.state.(position := p) == c.state && r.saved == c.saved
      && (r.state.position != p ==> r.emitted == c.emitted + [OnMove(r.state.position.x, r.state.position.y)])
      && (r.state.position == p ==> r == c)
  {
  }

  /**
    `resize` commits the clamped request, changes nothing but the size, and
    emits one `resize` event exactly when the size changed.
   */
  lemma ResizeReportsChange(c: Control, width: Option<real>, height: Option<real>, lim: Limits)
    ensures var r := Resized(c, width, height, lim); var s := r.state.size;
      && s == ResizeTarget(c.state.size, width, height, lim)
      && r.state.(size := c.state.size) == c.state && r.saved == c.saved
      && (s != c.state.size ==> r.emitted == c.emitted + [OnResize(s.width, s.height)])
      && (s == c.state.size ==> r == c)
  {
  }

  /**
    `resize` keeps the size within its limits when they do not cross, and
    takes an in-range request as is.
   */
  lemma ResizeClamps(c: Control, width: Option<real>, height: Option<real>, lim: Limits)
    requires lim.minWidth <= lim.maxWidth && lim.minHeight <= lim.maxHeight
    ensures var r := Resized(c, width, height, lim); var s := r.state.size;
      && lim.minWidth <= s.width <= lim.maxWidth && lim.minHeight <= s.height <= lim.maxHeight
      && (width.Some? && lim.minWidth <= width.value <= lim.maxWidth ==> s.width == width.value)
      && (height.Some? && lim.minHeight <= height.value <= lim.maxHeight ==> s.height == height.value)
  {
  }

  /** `save` always copies the focus, and the geometry only of a `"normal"` window. */
  lemma SaveCopiesNormalGeometry(c: Control)
    ensures var r := Saved(c);
      && r.saved.focused == c.state.focused && r.saved.status == c.saved.status
      && (c.state.status == Normal ==> r.saved.position == c.state.position && r.saved.size == c.state.size)
      && (c.state.status != Normal ==> r.saved.position == c.saved.position && r.saved.size == c.saved.size)
      && r.state == c.state && r.emitted == c.emitted
  {
  }

  /** `focus` and `blur` emit only when the focus changes, and then save. */
  lemma FocusEmitsOnChange(c: Control)
    ensures var r := Focused(c);
      && r.state == c.state.(focused := true) && r.saved.focused
      && r.emitted == c.emitted + (if c.state.focused then [] else [OnFocus])
    ensures var r := Blurred(c);
      && r.state == c.state.(focused := false) && !r.saved.focused
      && r.emitted == c.emitted + (if c.state.focused then [OnBlur] else [])
  {
  }

  /**
    From `"normal"`, `minimize` saves the geometry and leaves a strip as wide
    as the resize minimum (200, or the window width if narrower) and
    `minHeight` high (at least 100), at the bottom left, then emits `minimize`.
   */
  lemma MinimizeFromNormal(c: Control, force: bool)
    requires c.state.status == Normal
    ensures var r := Minimized(c, force);
      && r.state.status == Min && r.state.focused == c.state.focused
      && r.state.size == Size(RealMin(c.windowWidth, DefaultMinWidth),
                              Clamp(c.minHeight, DefaultMinHeight, c.windowHeight))
      && r.state.position == Position(0.0, c.windowHeight - c.minHeight)
      && r.saved == c.saved.(focused := c.state.focused, position := c.state.position, size := c.state.size)
      && r.fullscreen == c.fullscreen
      && |r.emitted| > |c.emitted| && r.emitted[..|c.emitted|] == c.emitted
      && r.emitted[|r.emitted| - 1] == OnMinimize
  {
  }

  /**
    From `"normal"`, `maximize` saves the geometry and fills the window from
    the origin, then emits `maximize`.
   */
  lemma MaximizeFromNormal(c: Control, force: bool)
    requires c.state.status == Normal
    ensures var r := Maximized(c, force);
      && r.state.status == Max && r.state.focused == c.state.focused
      && r.state.size == Size(c.windowWidth, c.windowHeight)
      && r.state.position == Position(0.0, 0.0)
      && r.saved == c.saved.(focused := c.state.focused, position := c.state.position, size := c.state.size)
      && r.fullscreen == c.fullscreen
      && |r.emitted| > |c.emitted| && r.emitted[..|c.emitted|] == c.emitted
      && r.emitted[|r.emitted| - 1] == OnMaximize
  {
  }

  /**
    `restore` leaves fullscreen and returns to the saved position and the
    saved size (as clamped by `resize`), in status `"normal"`, keeping the
    snapshot, then emits `restore`.
   */
  lemma RestoreReturnsToSaved(c: Control)
    ensures var r := Restored(c);
      && r.state.status == Normal && !r.fullscreen && r.state.focused == c.state.focused
      && r.state.position == c.saved.position
      && r.state.size == ResizeTarget(c.state.size, Some(c.saved.size.width), Some(c.saved.size.height), DefaultLimits(c))
      && r.saved == c.saved
      && r.emitted[|r.emitted| - 1] == OnRestore
  {
  }

  /**
    Without `force`, a window that is not `"normal"` is restored first; it
    stays restored when it was already in the requested status (for
    `fullscreen`: when the element is fullscreen), and otherwise goes on to
    the requested status from there.
   */
  lemma ToggleRoutesThroughRestore(c: Control)
    requires c.state.status != Normal
    ensures Minimized(c, false) == (if c.state.status == Min then Restored(c) else EnterMin(Restored(c)))
    ensures Maximized(c, false) == (if c.state.status == Max then Restored(c) else EnterMax(Restored(c)))
    ensures Fullscreened(c, false) == (if c.fullscreen then Restored(c) else EnterFull(Restored(c)))
    ensures Restored(c).state.status == Normal
  {
  }

  /**
    Minimizing and then minimizing again brings a `"normal"` window back to
    where it was, at the size it had when that size was within the resize
    limits, in status `"normal"`.
   */
  lemma MinimizeToggleRoundTrip(c: Control)
    requires c.state.status == Normal
    requires DefaultMinWidth <= c.state.size.width <= c.windowWidth
    requires DefaultMinHeight <= c.state.size.height <= c.windowHeight
    ensures var r := Minimized(Minimized(c, false), false);
      r.state == c.state && r.saved.position == c.state.position && r.saved.size == c.state.size
  {
    var m := Minimized(c, false);
    MinimizeFromNormal(c, false);
    assert m.saved.size == c.state.size && m.saved.position == c.state.position;
    ToggleRoutesThroughRestore(m);
    RestoreReturnsToSaved(m);
  }

  /** The same round trip through `maximize`. */
  lemma MaximizeToggleRoundTrip(c: Control)
    requires c.state.status == Normal
    requires DefaultMinWidth <= c.state.size.width <= c.windowWidth
    requires DefaultMinHeight <= c.state.size.height <= c.windowHeight
    ensures var r := Maximized(Maximized(c, false), false);
      r.state == c.state && r.saved.position == c.state.position && r.saved.size == c.state.size
  {
    var m := Maximized(c, false);
    MaximizeFromNormal(c, false);
    assert m.saved.size == c.state.size && m.saved.position == c.state.position;
    ToggleRoutesThroughRestore(m);
    RestoreReturnsToSaved(m);
  }

  /**
    A change of the window size re-lays out a maximized or minimized window
    in the same status without touching the saved geometry, and leaves any
    other window alone.
   */
  lemma RescaleKeepsSnapshot(c: Control, width: real, height: real)
    ensures var r := Rescaled(c, width, height);
      && r.windowWidth == width && r.windowHeight == height
      && r.state.status == c.state.status
      && r.saved.position == c.saved.position && r.saved.size == c.saved.size
      && (c.state.status == Normal || c.state.status == Full ==> r.state == c.state && r.emitted == c.emitted)
      && (c.state.status == Max && (width != c.windowWidth || height != c.windowHeight) ==>
            r.state.position == Position(0.0, 0.0)
            && r.state.size == Size(Clamp(width, DefaultMinWidth, width), Clamp(height, DefaultMinHeight, height)))
  {
  }

  /**
    The composable's instance: `state` and `saved` are its refs, the window
    size and fullscreen fields stand for the reactive values it watches, and
    `emitted` records the calls of `emit`. Every operation is proved to take
    `Snapshot()` to the function above that defines it.
   */
  class Controller {
    var state: WindowState
    var saved: WindowState
    var windowWidth: real
    var windowHeight: real
    var fullscreen: bool
    const minHeight: real
    var emitted: seq<Emit>

    function Snapshot(): Control
      reads this
    {
      Control(state, saved, windowWidth, windowHeight, fullscreen, minHeight, emitted)
    }

    /** `useWinBoxControl(…)`: both refs start blank, `minHeight` defaults to 100. */
    constructor(minHeight: Option<real>, windowWidth: real, windowHeight: real)
      ensures Snapshot() == Control(Blank, Blank, windowWidth, windowHeight, false, minHeight.GetOr(DefaultMinHeight), [])
    {
      state := Blank;
      saved := Blank;
      this.windowWidth := windowWidth;
      this.windowHeight := windowHeight;
      fullscreen := false;
      this.minHeight := minHeight.GetOr(DefaultMinHeight);
      emitted := [];
    }

    method EmitEvent(e: Emit)
      modifies this`emitted
      ensures emitted == old(emitted) + [e]
    {
      emitted := emitted + [e];
    }

    method Save()
      modifies this`saved
      ensures Snapshot() == Saved(old(Snapshot()))
    {
      saved := saved.(focused := state.focused);
      if state.status == Normal {
        saved := saved.(position := state.position, size := state.size);
      }
    }

    /** `move(x, y)`, returning which coordinates changed. */
    method Move(x: Option<real>, y: Option<real>) returns (xChanged: bool, yChanged: bool)
      modifies this`state, this`emitted
      ensures Snapshot() == Moved(old(Snapshot()), x, y)
      ensures var p := MoveTarget(old(state.position), x, y);
        xChanged == (p.x != old(state.position.x)) && yChanged == (p.y != old(state.position.y))
    {
      var current := state.position;
      var newX := x.GetOr(current.x);
      var newY := y.GetOr(current.y);
      xChanged := newX != current.x;
      yChanged := newY != current.y;
      if xChanged || yChanged {
        state := state.(position := Position(newX, newY));
        EmitEvent(OnMove(newX, newY));
      }
    }

    /** `resize(width, height, minWidth, minHeight, maxWidth, maxHeight)`, returning which extents changed. */
    method Resize(width: Option<real>, height: Option<real>, minWidth: Option<real>, minHeight: Option<real>,
                  maxWidth: Option<real>, maxHeight: Option<real>) returns (widthChanged: bool, heightChanged: bool)
      modifies this`state, this`emitted
      ensures var lim := ResizeLimits(old(Snapshot()), minWidth, minHeight, maxWidth, maxHeight);
        Snapshot() == Resized(old(Snapshot()), width, height, lim)
      ensures var lim := ResizeLimits(old(Snapshot()), minWidth, minHeight, maxWidth, maxHeight);
        var s := ResizeTarget(old(state.size), width, height, lim);
        widthChanged == (s.width != old(state.size.width)) && heightChanged == (s.height != old(state.size.height))
    {
      var current := state.size;
      var newWidth := Clamp(width.GetOr(current.width), minWidth.GetOr(DefaultMinWidth), maxWidth.GetOr(windowWidth));
      var newHeight := Clamp(height.GetOr(current.height), minHeight.GetOr(DefaultMinHeight), maxHeight.GetOr(windowHeight));
      widthChanged := newWidth != current.width;
      heightChanged := newHeight != current.height;
      if widthChanged || heightChanged {
        state := state.(size := Size(newWidth, newHeight));
        EmitEvent(OnResize(newWidth, newHeight));
      }
    }

    method Focus()
      modifies this`state, this`saved, this`emitted
      ensures Snapshot() == Focused(old(Snapshot()))
    {
      if !state.focused {
        state := state.(focused := true);
        EmitEvent(OnFocus);
      }
      Save();
    }

    method Blur()
      modifies this`state, this`saved, this`emitted
      ensures Snapshot() == Blurred(old(Snapshot()))
    {
      if state.focused {
        state := state.(focused := false);
        EmitEvent(OnBlur);
      }
      Save();
    }

    method Restore()
      modifies this`state, this`fullscreen, this`emitted
      ensures Snapshot() == Restored(old(Snapshot()))
    {
      if fullscreen {
        fullscreen := false;
      }
      var target := saved;
      var _, _ := Resize(Some(target.size.width), Some(target.size.height), None, None, None, None);
      var _, _ := Move(Some(target.position.x), Some(target.position.y));
      state := state.(status := Normal);
      EmitEvent(OnRestore);
    }

    method Minimize(force: bool)
      modifies this`state, this`saved, this`fullscreen, this`emitted
      ensures Snapshot() == Minimized(old(Snapshot()), force)
    {
      if state.status != Normal && !force {
        var ok := state.status == Min;
        Restore();
        if ok {
          return;
        }
      }
      EnterMinimized();
    }

    method EnterMinimized()
      modifies this`state, this`saved, this`emitted
      ensures Snapshot() == EnterMin(old(Snapshot()))
    {
      Save();
      state := state.(status := Min);
      var _, _ := Resize(Some(0.0), Some(minHeight), None, None, None, None);
      var _, _ := Move(Some(0.0), Some(windowHeight - minHeight));
      EmitEvent(OnMinimize);
    }

    method Maximize(force: bool)
      modifies this`state, this`saved, this`fullscreen, this`emitted
      ensures Snapshot() == Maximized(old(Snapshot()), force)
    {
      if state.status != Normal && !force {
        var ok := state.status == Max;
        Restore();
        if ok {
          return;
        }
      }
      EnterMaximized();
    }

    method EnterMaximized()
      modifies this`state, this`saved, this`emitted
      ensures Snapshot() == EnterMax(old(Snapshot()))
    {
      Save();
      state := state.(status := Max);
      var _, _ := Resize(Some(windowWidth), Some(windowHeight), None, None, None, None);
      var _, _ := Move(Some(0.0), Some(0.0));
      EmitEvent(OnMaximize);
    }

    method Fullscreen(force: bool)
      modifies this`state, this`saved, this`fullscreen, this`emitted
      ensures Snapshot() == Fullscreened(old(Snapshot()), force)
    {
      if state.status != Normal && !force {
        var ok := fullscreen;
        Restore();
        if ok {
          return;
        }
      }
      EnterFullscreen();
    }

    method EnterFullscreen()
      modifies this`state, this`saved, this`fullscreen, this`emitted
      ensures Snapshot() == EnterFull(old(Snapshot()))
    {
      Save();
      state := state.(status := Full);
      fullscreen := true;
      EmitEvent(OnFullscreen);
    }

    method Close()
      modifies this`saved, this`emitted
      ensures Snapshot() == Closed(old(Snapshot()))
    {
      Save();
      EmitEvent(OnClose);
    }

    /** The window size changes; the watcher re-lays out a maximized or minimized window. */
    method WindowResized(width: real, height: real)
      modifies this
      ensures Snapshot() == Rescaled(old(Snapshot()), width, height)
    {
      var changed := width != windowWidth || height != windowHeight;
      windowWidth := width;
      windowHeight := height;
      if changed {
        match state.status
        case Max => Maximize(true);
        case Min => Minimize(true);
        case _ =>
      }
    }

    /** The element leaves fullscreen on its own (the user pressed Escape). */
    method NativeFullscreenLeft()
      modifies this`fullscreen
      ensures Snapshot() == old(Snapshot()).(fullscreen := false)
    {
      fullscreen := false;
    }
  }
}
