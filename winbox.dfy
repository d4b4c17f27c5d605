/**
  The window manager: the window record, the module-level state it shares with
  every other window (the minimized stack, the z-index counter, the focused
  window, the fullscreen window, the root size), the document's inline styles,
  and the operations that move a window between its states.

  A window's `x`, `y`, `width` and `height` fields are its normal geometry; the
  inline style of its element (`styles`) is what is displayed. Maximizing and
  docking write only the style, which is how the normal geometry survives them.
  Lifecycle hooks are user code: each call point is appended to a ghost log.
 */
module WinBox {
  import opened JsNumbers
  import opened Coordinates
  import opened Construction
  import opened Dock
  import opened Gesture

  /**
    The lifecycle hooks. `onmove` and `onresize` always receive the stored
    position and size, which the contracts of `MoveWindow` and `ResizeWindow`
    state; the journal records only which hook was called on which window.
   */
  datatype Hook =
    | OnFocus | OnBlur | OnHide | OnShow
    | OnMinimize | OnMaximize | OnRestore | OnFullscreen
    | OnMove | OnResize
    | OnClose(force: bool)

  datatype Event = Event(window: Window, hook: Hook)

  /** The journal of hook calls, in order. */
  class Log {
    ghost var events: seq<Event>

    constructor()
      ensures events == []
    {
      events := [];
    }
  }

  /** The geometry an element's inline style shows, in pixels. */
  datatype Style = Style(left: real, top: real, width: real, height: real)

  /** The style of a new element, before any geometry is written to it. */
  const Unstyled: Style := Style(0.0, 0.0, 0.0, 0.0)

  /** One window. Its limits, insets, header and classes never change after construction. */
  class Window {
    const top: real
    const right: real
    const bottom: real
    const left: real
    const minwidth: real
    const minheight: real
    const maxwidth: real
    const maxheight: real
    const header: real
    const overflow: bool
    const noMove: bool
    const noMax: bool

    var x: real
    var y: real
    var width: real
    var height: real
    var index: int
    var min: bool
    var max: bool
    var full: bool
    var hidden: bool
    var focused: bool

    /** A window with resolved geometry `g`, in no state at all. */
    constructor(g: Geometry, header: real, overflow: bool, noMove: bool, noMax: bool)
      requires g.Finite()
      ensures top == g.top.v && right == g.right.v && bottom == g.bottom.v && left == g.left.v
      ensures minwidth == g.minwidth.v && minheight == g.minheight.v
      ensures maxwidth == g.maxwidth.v && maxheight == g.maxheight.v
      ensures x == g.x.v && y == g.y.v && width == g.width.v && height == g.height.v
      ensures this.header == header && this.overflow == overflow && this.noMove == noMove && this.noMax == noMax
      ensures index == 0 && !min && !max && !full && !hidden && !focused
    {
      top, right, bottom, left := g.top.v, g.right.v, g.bottom.v, g.left.v;
      minwidth, minheight, maxwidth, maxheight := g.minwidth.v, g.minheight.v, g.maxwidth.v, g.maxheight.v;
      this.header, this.overflow, this.noMove, this.noMax := header, overflow, noMove, noMax;
      x, y, width, height := g.x.v, g.y.v, g.width.v, g.height.v;
      index := 0;
      min, max, full, hidden, focused := false, false, false, false, false;
    }

    /** What the dock layout needs of this window. */
    function DockAnchor(): Anchor {
      Anchor(left, top, right, bottom, header)
    }

    /** What a pointer gesture needs of this window's limits. */
    function Bounds(): Limits {
      Limits(minwidth, minheight, maxwidth, maxheight, top, right, bottom, left, header, overflow)
    }

    /** The normal geometry. */
    function Frame(): Rect
      reads this`x, this`y, this`width, this`height
    {
      Rect(x, y, width, height)
    }

    /** The style of a maximized element: the viewport left by the insets. */
    function MaxStyle(rootW: real, rootH: real): Style {
      Style(left, top, rootW - left - right, rootH - top - bottom)
    }

    /** The tick's assignments to the normal geometry. */
    method SetFrame(r: Rect)
      modifies this`x, this`y, this`width, this`height
      ensures Frame() == r
    {
      x, y, width, height := r.x, r.y, r.width, r.height;
    }

    /** The style that shows the normal geometry. */
    function FrameStyle(): Style
      reads this`x, this`y, this`width, this`height
    {
      Style(x, y, width, height)
    }
  }

  /** The dock anchors of a sequence of windows. */
  function Anchors(s: seq<Window>): seq<Anchor> {
    seq(|s|, i requires 0 <= i < |s| => s[i].DockAnchor())
  }

  /** The style that shows a dock slot. */
  function SlotStyle(s: Slot): Style {
    Style(s.x as real, s.y, s.width as real, s.height)
  }

  /** The hooks of a `resize()` then `move()` on `w`. */
  function RedrawHooks(w: Window): seq<Event> {
    [Event(w, OnResize), Event(w, OnMove)]
  }

  /** The hooks a dock layout calls on the first `n` docked windows, in stack order. */
  function DockHooks(s: seq<Window>, n: nat): seq<Event>
    requires n <= |s|
  {
    if n == 0 then [] else DockHooks(s, n - 1) + RedrawHooks(s[n - 1])
  }

  /**
    The slot computation of the dock layout: the first loop counts the members
    of each group, the second walks the stack keeping each group's running
    position. The result is the layout of the whole stack.
   */
  method DockSlots(anchors: seq<Anchor>, rootW: real, rootH: real) returns (slots: seq<Slot>)
    ensures slots == Layout(anchors, |anchors|, rootW, rootH)
  {
    var index, length := CountGroups(anchors);
    slots := [];
    var i := 0;
    while i < |anchors|
      invariant 0 <= i <= |anchors|
      invariant index.Keys == KeysOf(anchors, |anchors|)
      invariant forall k :: k in index ==> index[k] == GroupCount(anchors, i, k)
      invariant slots == Layout(anchors, i, rootW, rootH)
    {
      var slot;
      slot, index := NextSlot(anchors, i, index, length, rootW, rootH);
      slots := slots + [slot];
      i := i + 1;
    }
  }

  /**
    The second loop's step for the i-th docked window: the slot width is the
    viewport left by its insets split by its group's size, at most 250; its slot
    follows the ones its group has already used; and the group's running
    position moves on by one.
   */
  method NextSlot(anchors: seq<Anchor>, i: nat, index: map<Key, nat>, length: map<Key, nat>,
                  rootW: real, rootH: real)
    returns (slot: Slot, index': map<Key, nat>)
    requires i < |anchors|
    requires length.Keys == KeysOf(anchors, |anchors|) && index.Keys == KeysOf(anchors, |anchors|)
    requires forall k :: k in length ==> length[k] == GroupCount(anchors, |anchors|, k)
    requires forall k :: k in index ==> index[k] == GroupCount(anchors, i, k)
    ensures slot == SlotAt(anchors, i, rootW, rootH)
    ensures index'.Keys == index.Keys
    ensures forall k :: k in index' ==> index'[k] == GroupCount(anchors, i + 1, k)
  {
    var key := anchors[i].Group();
    GroupPositionBound(anchors, i);
    GroupCountPositive(anchors, |anchors|, key);
    slot := SlotOf(anchors[i], length[key], index[key], rootW, rootH);
    index' := index[key := index[key] + 1];
  }

  /** The styles after the first `n` windows of `s` are shown in their slots, in order. */
  function Docked(styles: map<Window, Style>, s: seq<Window>, slots: seq<Slot>, n: nat): map<Window, Style>
    requires n <= |s| && |slots| == |s|
  {
    if n == 0 then styles else Docked(styles, s, slots, n - 1)[s[n - 1] := SlotStyle(slots[n - 1])]
  }

  /** The styles after the dock layout of `stack` in a root of the given size. */
  function DockStyles(styles: map<Window, Style>, stack: seq<Window>, rootW: real, rootH: real): map<Window, Style> {
    Docked(styles, stack, Layout(Anchors(stack), |stack|, rootW, rootH), |stack|)
  }

  /**
    Showing the first `n` windows of a stack of distinct windows in their
    slots gives each of them its own slot's style, adds no element and leaves
    every other element's style alone.
   */
  lemma {:induction false} DockedAt(styles: map<Window, Style>, s: seq<Window>, slots: seq<Slot>, n: nat)
    requires n <= |s| && |slots| == |s| && Distinct(s)
    requires forall j :: 0 <= j < n ==> s[j] in styles
    ensures var r := Docked(styles, s, slots, n);
      && r.Keys == styles.Keys
      && (forall j :: 0 <= j < n ==> r[s[j]] == SlotStyle(slots[j]))
      && (forall v :: v in styles && v !in s[..n] ==> r[v] == styles[v])
  {
    if n > 0 {
      DockedAt(styles, s, slots, n - 1);
      assert s[..n] == s[..n - 1] + [s[n - 1]];
    }
  }

  /**
    After the dock layout every docked element shows its slot of the layout
    of the whole stack, and the elements of windows off the stack keep their
    styles.
   */
  lemma DockStylesShowSlots(styles: map<Window, Style>, stack: seq<Window>, rootW: real, rootH: real)
    requires Distinct(stack) && forall v :: v in stack ==> v in styles
    ensures var r := DockStyles(styles, stack, rootW, rootH);
      var slots := Layout(Anchors(stack), |stack|, rootW, rootH);
      && r.Keys == styles.Keys
      && (forall i :: 0 <= i < |stack| ==> r[stack[i]] == SlotStyle(slots[i]))
      && (forall v :: v in styles && v !in stack ==> r[v] == styles[v])
  {
    DockedAt(styles, stack, Layout(Anchors(stack), |stack|, rootW, rootH), |stack|);
    assert stack[..|stack|] == stack;
  }

  /**
    Laying out the dock with a window pushed on the stack and laying it out
    again once the window has left it gives every element the style the
    second layout alone gives it, except for that window's own element.
   */
  lemma RedockForgets(styles: map<Window, Style>, s: seq<Window>, w: Window, rootW: real, rootH: real, f: Style)
    requires Distinct(s) && w !in s && w in styles && forall v :: v in s ==> v in styles
    ensures DockStyles(DockStyles(styles, s + [w], rootW, rootH), s, rootW, rootH)[w := f]
         == DockStyles(styles, s, rootW, rootH)[w := f]
  {
    var pushed := s + [w];
    PushKeepsDistinct(s, w);
    var inner := DockStyles(styles, pushed, rootW, rootH);
    DockStylesShowSlots(styles, pushed, rootW, rootH);
    DockStylesShowSlots(inner, s, rootW, rootH);
    DockStylesShowSlots(styles, s, rootW, rootH);
    var a := DockStyles(inner, s, rootW, rootH)[w := f];
    var b := DockStyles(styles, s, rootW, rootH)[w := f];
    forall v | v in a ensures v in b && a[v] == b[v] {
      if v != w && v !in s {
        assert v !in pushed;
      }
    }
  }

  /** The state of one pointer handle: the closure variables of its listeners. */
  class Handle {
    const window: Window
    const dir: Dir
    /** Whether the move and up listeners are attached. */
    var tracking: bool
    /** The pointer position the next offset is measured from. */
    var anchor: Point
    /** The time of the last counted title-bar press. */
    var lastPress: int

    constructor(window: Window, dir: Dir)
      ensures this.window == window && this.dir == dir
      ensures !tracking && anchor == Point(0.0, 0.0) && lastPress == 0
    {
      this.window, this.dir := window, dir;
      tracking, anchor, lastPress := false, Point(0.0, 0.0), 0;
    }
  }

  /** The module-level state shared by all windows, and the document's inline styles. */
  class Manager {
    var rootW: real
    var rootH: real
    var indexCounter: int
    var lastFocus: Window?
    /** `is_fullscreen`: the window that last entered fullscreen; it is never reset. */
    var fullscreenWindow: Window?
    /** Whether the document is natively fullscreen: the browser's answer, not the library's. */
    var nativeFullscreen: bool
    /** Whether the browser offers a fullscreen request. */
    const canFullscreen: bool
    var stackMin: seq<Window>
    /** The inline style of each window's element, for the windows whose element is in the document. */
    var styles: map<Window, Style>
    /** The windows created and not yet closed. */
    ghost var windows: set<Window>
    const log: Log

    /** The invariant of the shared state. */
    ghost predicate Valid()
      reads this`stackMin, this`windows, this`indexCounter, this`lastFocus
      reads windows`focused, windows`index, windows`min, windows`max
    {
      && Distinct(stackMin)
      && (forall v :: v in stackMin ==> v in windows)
      && 10 <= indexCounter
      // at most one window is focused, and it is the one `lastFocus` names
      && (lastFocus != null ==> lastFocus in windows && lastFocus.focused)
      && (forall v :: v in windows && v.focused ==> v == lastFocus)
      // every assigned z-index came from the counter or lies below it
      && (forall v :: v in windows ==> v.index <= indexCounter)
      // a window is minimized exactly when it is on the stack, and never also maximized
      && (forall v :: v in windows ==> (v.min <==> v in stackMin))
      && (forall v :: v in windows ==> !(v.min && v.max))
    }

    /** Every open window's element is in the document. */
    ghost predicate Mounted()
      reads this`windows, this`styles
    {
      forall v :: v in windows ==> v in styles
    }

    /** The state before any window exists: the z-index counter starts at 10. */
    constructor(rootW: real, rootH: real, canFullscreen: bool, nativeFullscreen: bool)
      ensures Valid() && fresh(log) && log.events == []
      ensures windows == {} && styles == map[] && stackMin == [] && lastFocus == null && fullscreenWindow == null
      ensures indexCounter == 10 && this.rootW == rootW && this.rootH == rootH
      ensures this.canFullscreen == canFullscreen && this.nativeFullscreen == nativeFullscreen
    {
      this.rootW, this.rootH := rootW, rootH;
      indexCounter := 10;
      lastFocus, fullscreenWindow := null, null;
      this.canFullscreen, this.nativeFullscreen := canFullscreen, nativeFullscreen;
      stackMin := [];
      styles := map[];
      windows := {};
      log := new Log();
    }

    /**
      `resize(w, h, skip_update)` with numeric arguments. Without a width the
      element shows the stored size. With one, the stored size becomes the
      arguments (an omitted height is 0) and the element shows it raised to
      the minimum; with `skip_update` only the element shows the arguments and
      the stored size is untouched. `onresize` always gets the stored size.
     */
    method ResizeWindow(w: Window, width: Option<real>, height: Option<real>, skip: bool)
      requires w in styles
      modifies (if skip || width.None? then {} else {w})`width, (if skip || width.None? then {} else {w})`height
      modifies this`styles, log
      ensures w in styles && styles == old(styles)[w := styles[w]]
      ensures styles[w].left == old(styles[w].left) && styles[w].top == old(styles[w].top)
      ensures width.None? ==> w.width == old(w.width) && w.height == old(w.height)
      ensures width.None? ==> styles[w].width == w.width && styles[w].height == w.height
      ensures width.Some? && !skip ==> w.width == width.value && w.height == height.GetOr(0.0)
      ensures width.Some? && !skip ==>
        styles[w].width == RealMax(w.width, w.minwidth) && styles[w].height == RealMax(w.height, w.minheight)
      ensures width.Some? && skip ==> w.width == old(w.width) && w.height == old(w.height)
      ensures width.Some? && skip ==> styles[w].width == width.value
      ensures width.Some? && skip ==> styles[w].height == (if height.Some? then height.value else old(styles[w].height))
      ensures log.events == old(log.events) + [Event(w, OnResize)]
    {
      var st := styles[w];
      if width.None? {
        st := st.(width := w.width, height := w.height);
      } else if !skip {
        w.width := width.value;
        w.height := height.GetOr(0.0);
        st := st.(width := RealMax(w.width, w.minwidth), height := RealMax(w.height, w.minheight));
      } else {
        // an undefined height becomes an invalid style value, which the browser ignores
        st := st.(width := width.value, height := height.GetOr(st.height));
      }
      styles := styles[w := st];
      log.events := log.events + [Event(w, OnResize)];
    }

    /**
      `move(x, y, skip_update)` with numeric arguments. Without an x the
      element shows the stored position. With one, a falsy coordinate (0 or
      omitted) falls back to the window's inset, and the result is both stored
      and shown; with `skip_update` only the element shows the arguments.
      `onmove` always gets the stored position.
     */
    method MoveWindow(w: Window, x: Option<real>, y: Option<real>, skip: bool)
      requires w in styles
      modifies (if skip || x.None? then {} else {w})`x, (if skip || x.None? then {} else {w})`y
      modifies this`styles, log
      ensures w in styles && styles == old(styles)[w := styles[w]]
      ensures styles[w].width == old(styles[w].width) && styles[w].height == old(styles[w].height)
      ensures x.None? ==> w.x == old(w.x) && w.y == old(w.y)
      ensures x.None? ==> styles[w].left == w.x && styles[w].top == w.y
      ensures x.Some? && !skip ==>
        && w.x == (if x.value != 0.0 then x.value else w.left)
        && w.y == (if y.Some? && y.value != 0.0 then y.value else w.top)
        && styles[w].left == w.x && styles[w].top == w.y
      ensures x.Some? && skip ==> w.x == old(w.x) && w.y == old(w.y)
      ensures x.Some? && skip ==> styles[w].left == x.value
      ensures x.Some? && skip ==> styles[w].top == (if y.Some? then y.value else old(styles[w].top))
      ensures log.events == old(log.events) + [Event(w, OnMove)]
    {
      var st := styles[w];
      if x.None? {
        st := st.(left := w.x, top := w.y);
      } else if !skip {
        w.x := if x.value != 0.0 then x.value else w.left;
        w.y := if y.Some? && y.value != 0.0 then y.value else w.top;
        st := st.(left := w.x, top := w.y);
      } else {
        st := st.(left := x.value, top := y.GetOr(st.top));
      }
      styles := styles[w := st];
      log.events := log.events + [Event(w, OnMove)];
    }

    /** `resize().move()`: the element shows the stored geometry again. */
    method Redraw(w: Window)
      requires w in styles
      modifies this`styles, log
      ensures styles == old(styles)[w := w.FrameStyle()]
      ensures log.events == old(log.events) + RedrawHooks(w)
    {
      ResizeWindow(w, None, None, false);
      MoveWindow(w, None, None, false);
    }

    /**
      `focus(state)`. `focus(false)` is `blur()`. Otherwise, unless the window
      already has the focus, the previously focused window is blurred, the
      window takes the next z-index (so it is above every other window) and the
      focus, and `onfocus` is called.
     */
    method Focus(w: Window, state: Option<bool>)
      requires Valid() && w in windows
      modifies this`lastFocus, this`indexCounter, w`index, w`focused, log
      modifies (if lastFocus == null then {} else {lastFocus})`focused
      ensures Valid()
      ensures state != Some(false) ==> lastFocus == w && w.focused
      ensures state != Some(false) && old(lastFocus) != w ==>
        && indexCounter == old(indexCounter) + 1
        && w.index == indexCounter
        && (forall v :: v in windows && v != w ==> v.index < w.index)
        && log.events == old(log.events) +
             (if old(lastFocus) == null then [] else [Event(old(lastFocus), OnBlur)]) + [Event(w, OnFocus)]
      ensures state != Some(false) && old(lastFocus) == w ==>
        indexCounter == old(indexCounter) && w.index == old(w.index) && log.events == old(log.events)
      ensures state == Some(false) ==> indexCounter == old(indexCounter) && w.index == old(w.index)
      ensures state == Some(false) && old(lastFocus) == w ==>
        lastFocus == null && !w.focused && log.events == old(log.events) + [Event(w, OnBlur)]
      ensures state == Some(false) && old(lastFocus) != w ==>
        lastFocus == old(lastFocus) && log.events == old(log.events)
      decreases 1
    {
      if state == Some(false) {
        Blur(w, None);
        return;
      }
      if lastFocus != w {
        if lastFocus != null {
          Blur(lastFocus, None);
        }
        indexCounter := indexCounter + 1;
        w.index := indexCounter;
        lastFocus := w;
        w.focused := true;
        log.events := log.events + [Event(w, OnFocus)];
      }
    }

    /**
      `blur(state)`. `blur(false)` is `focus()`. Otherwise only the focused
      window reacts: it loses the focus, `onblur` is called, and no window has
      the focus any more.
     */
    method Blur(w: Window, state: Option<bool>)
      requires Valid() && w in windows
      modifies this`lastFocus, (if state == Some(false) then {this} else {})`indexCounter, w`focused, log
      modifies (if state == Some(false) then {w} else {})`index
      modifies (if state == Some(false) && lastFocus != null then {lastFocus} else {})`focused
      ensures Valid()
      ensures state != Some(false) ==> indexCounter == old(indexCounter) && w.index == old(w.index)
      ensures state != Some(false) && old(lastFocus) == w ==>
        lastFocus == null && !w.focused && log.events == old(log.events) + [Event(w, OnBlur)]
      ensures state != Some(false) && old(lastFocus) != w ==>
        lastFocus == old(lastFocus) && log.events == old(log.events)
      ensures state == Some(false) ==> lastFocus == w && w.focused
      ensures state == Some(false) && old(lastFocus) != w ==>
        && indexCounter == old(indexCounter) + 1
        && w.index == indexCounter
        && (forall v :: v in windows && v != w ==> v.index < w.index)
        && log.events == old(log.events) +
             (if old(lastFocus) == null then [] else [Event(old(lastFocus), OnBlur)]) + [Event(w, OnFocus)]
      ensures state == Some(false) && old(lastFocus) == w ==>
        indexCounter == old(indexCounter) && w.index == old(w.index) && log.events == old(log.events)
      decreases if state == Some(false) then 2 else 0
    {
      if state == Some(false) {
        Focus(w, None);
        return;
      }
      if lastFocus == w {
        w.focused := false;
        log.events := log.events + [Event(w, OnBlur)];
        lastFocus := null;
      }
    }

    /** `hide(state)`; `hide(false)` is `show()`. `onhide` is called only when the window was visible. */
    method Hide(w: Window, state: Option<bool>)
      modifies w`hidden, log
      ensures w.hidden == (state != Some(false))
      ensures log.events == old(log.events) +
        (if state == Some(false) then (if old(w.hidden) then [Event(w, OnShow)] else [])
         else (if old(w.hidden) then [] else [Event(w, OnHide)]))
      decreases if state == Some(false) then 1 else 0
    {
      if state == Some(false) {
        Show(w, None);
        return;
      }
      if !w.hidden {
        log.events := log.events + [Event(w, OnHide)];
        w.hidden := true;
      }
    }

    /** `show(state)`; `show(false)` is `hide()`. `onshow` is called only when the window was hidden. */
    method Show(w: Window, state: Option<bool>)
      modifies w`hidden, log
      ensures w.hidden == (state == Some(false))
      ensures log.events == old(log.events) +
        (if state == Some(false) then (if old(w.hidden) then [] else [Event(w, OnHide)])
         else (if old(w.hidden) then [Event(w, OnShow)] else []))
      decreases if state == Some(false) then 1 else 0
    {
      if state == Some(false) {
        Hide(w, None);
        return;
      }
      if w.hidden {
        log.events := log.events + [Event(w, OnShow)];
        w.hidden := false;
      }
    }

    /** `cancel_fullscreen()`: exits native fullscreen if the document is in it, and says whether it was. */
    method CancelFullscreen() returns (exited: bool)
      modifies this`nativeFullscreen
      ensures exited == old(nativeFullscreen) && !nativeFullscreen
    {
      exited := nativeFullscreen;
      nativeFullscreen := false;
    }

    /**
      The dock layout (`update_min_stack`): every docked window's element is
      placed in its slot, computed from the whole stack, and gets its
      `onresize` and `onmove` calls. No stored geometry and no other element
      changes.
     */
    method UpdateMinStack()
      requires forall v :: v in stackMin ==> v in styles
      modifies this`styles, log
      ensures styles == DockStyles(old(styles), stackMin, rootW, rootH) && styles.Keys == old(styles).Keys
      ensures log.events == old(log.events) + DockHooks(stackMin, |stackMin|)
    {
      var slots := DockSlots(Anchors(stackMin), rootW, rootH);
      PlaceInSlots(stackMin, slots);
    }

    /** The second loop of the layout: each docked window in turn is shown in its slot. */
    method PlaceInSlots(s: seq<Window>, slots: seq<Slot>)
      requires |slots| == |s| && forall v :: v in s ==> v in styles
      modifies this`styles, log
      ensures styles == Docked(old(styles), s, slots, |s|) && styles.Keys == old(styles).Keys
      ensures log.events == old(log.events) + DockHooks(s, |s|)
    {
      var i := 0;
      while i < |s|
        invariant 0 <= i <= |s|
        invariant styles.Keys == old(styles).Keys
        invariant styles == Docked(old(styles), s, slots, i)
        invariant log.events == old(log.events) + DockHooks(s, i)
      {
        PlaceInSlot(s[i], slots[i]);
        i := i + 1;
      }
    }

    /** One docked window: `resize(slot width, header, true).move(slot x, slot y, true)`. */
    method PlaceInSlot(w: Window, slot: Slot)
      requires w in styles
      modifies this`styles, log
      ensures styles == old(styles)[w := SlotStyle(slot)]
      ensures log.events == old(log.events) + RedrawHooks(w)
    {
      ResizeWindow(w, Some(slot.width as real), Some(slot.height), true);
      MoveWindow(w, Some(slot.x as real), Some(slot.y), true);
    }

    /** `remove_min_stack`: the window leaves the dock, which is laid out again without it. */
    method RemoveMinStack(w: Window)
      requires Valid() && Mounted() && w in windows && w.min
      modifies this`stackMin, this`styles, w`min, log
      ensures Valid() && Mounted() && !w.min && w !in stackMin
      ensures stackMin == RemoveFromStack(old(stackMin), w)
      ensures styles == DockStyles(old(styles), stackMin, rootW, rootH) && styles.Keys == old(styles).Keys
      ensures log.events == old(log.events) + DockHooks(stackMin, |stackMin|)
    {
      RemoveKeepsOthers(stackMin, w);
      stackMin := RemoveFromStack(stackMin, w);
      w.min := false;
      assert Valid();
      UpdateMinStack();
    }

    /**
      What `restore()` did to `w`: the window is in neither state and keeps its
      normal geometry; a natively fullscreen document was exited when some
      window ever entered fullscreen; a minimized window left the dock, which
      was laid out again, and a minimized or maximized one shows its normal
      geometry, with `onresize`, `onmove` and `onrestore` called; a window in
      neither state was left alone.
     */
    twostate predicate Restored(w: Window)
      reads this, w, log
    {
      && !w.min && !w.max && w.Frame() == old(w.Frame())
      && nativeFullscreen == (old(nativeFullscreen) && fullscreenWindow == null)
      && (old(w.min) ==>
           && stackMin == RemoveFromStack(old(stackMin), w)
           && styles == DockStyles(old(styles), stackMin, rootW, rootH)[w := w.FrameStyle()]
           && log.events == old(log.events) + DockHooks(stackMin, |stackMin|) + RedrawHooks(w) + [Event(w, OnRestore)])
      && (old(w.max) ==>
           && stackMin == old(stackMin) && styles == old(styles)[w := w.FrameStyle()]
           && log.events == old(log.events) + RedrawHooks(w) + [Event(w, OnRestore)])
      && (!old(w.min) && !old(w.max) ==>
           stackMin == old(stackMin) && styles == old(styles) && log.events == old(log.events))
    }

    /**
      `restore()`: a natively fullscreen document is exited first (when some
      window ever entered fullscreen); then a minimized window is undocked and
      a maximized one unmaximized, and either is shown at its normal geometry.
     */
    method Restore(w: Window)
      requires Valid() && Mounted() && w in windows
      modifies this`nativeFullscreen, this`stackMin, this`styles, w`min, w`max, log
      ensures Valid() && Mounted() && Restored(w)
    {
      if fullscreenWindow != null {
        var _ := CancelFullscreen();
      }
      if w.min {
        RestoreMinimized(w);
      }
      if w.max {
        RestoreMaximized(w);
      }
    }

    /** The minimized case of `restore()`: undock, show the normal geometry, call `onrestore`. */
    method RestoreMinimized(w: Window)
      requires Valid() && Mounted() && w in windows && w.min
      modifies this`stackMin, this`styles, w`min, log
      ensures Valid() && Mounted() && !w.min
      ensures stackMin == RemoveFromStack(old(stackMin), w)
      ensures styles == DockStyles(old(styles), stackMin, rootW, rootH)[w := w.FrameStyle()]
      ensures log.events == old(log.events) + DockHooks(stackMin, |stackMin|) + RedrawHooks(w) + [Event(w, OnRestore)]
    {
      Undock(w);
      log.events := log.events + [Event(w, OnRestore)];
    }

    /** `remove_min_stack(this); this.resize().move()`: undock and show the normal geometry. */
    method Undock(w: Window)
      requires Valid() && Mounted() && w in windows && w.min
      modifies this`stackMin, this`styles, w`min, log
      ensures Valid() && Mounted() && !w.min
      ensures stackMin == RemoveFromStack(old(stackMin), w)
      ensures styles == DockStyles(old(styles), stackMin, rootW, rootH)[w := w.FrameStyle()]
      ensures log.events == old(log.events) + DockHooks(stackMin, |stackMin|) + RedrawHooks(w)
    {
      RemoveMinStack(w);
      Redraw(w);
    }

    /** The maximized case of `restore()`: show the normal geometry again, call `onrestore`. */
    method RestoreMaximized(w: Window)
      requires Valid() && Mounted() && w in windows && w.max
      modifies w`max, this`styles, log
      ensures Valid() && Mounted() && !w.max
      ensures styles == old(styles)[w := w.FrameStyle()]
      ensures log.events == old(log.events) + RedrawHooks(w) + [Event(w, OnRestore)]
    {
      w.max := false;
      Redraw(w);
      log.events := log.events + [Event(w, OnRestore)];
    }

    /**
      `minimize(state)`; `minimize(false)` is `restore()`. Otherwise a natively
      fullscreen document is exited (when some window ever entered
      fullscreen), the window leaves the maximized state, and, unless it is
      already docked, it is pushed once onto the stack, the dock is laid out
      again and `onminimize` is called.
     */
    method Minimize(w: Window, state: Option<bool>)
      requires Valid() && Mounted() && w in windows
      modifies this`nativeFullscreen, this`stackMin, this`styles, w`min, w`max, log
      ensures Valid() && Mounted()
      ensures state == Some(false) ==> Restored(w)
      ensures state != Some(false) ==>
        && w.min && !w.max
        && nativeFullscreen == (old(nativeFullscreen) && fullscreenWindow == null)
      ensures state != Some(false) && old(w.min) ==>
        stackMin == old(stackMin) && styles == old(styles) && log.events == old(log.events)
      ensures state != Some(false) && !old(w.min) ==>
        && stackMin == old(stackMin) + [w]
        && styles == DockStyles(old(styles), stackMin, rootW, rootH)
        && log.events == old(log.events) + DockHooks(stackMin, |stackMin|) + [Event(w, OnMinimize)]
    {
      if state == Some(false) {
        Restore(w);
        return;
      }
      if fullscreenWindow != null {
        var _ := CancelFullscreen();
      }
      if w.max {
        w.max := false;
      }
      if !w.min {
        Dock(w);
      }
    }

    /**
      The docking step of `minimize()`: the window is pushed onto the stack,
      the dock is laid out again and `onminimize` is called.
     */
    method Dock(w: Window)
      requires Valid() && Mounted() && w in windows && !w.min && !w.max
      modifies this`stackMin, this`styles, w`min, log
      ensures Valid() && Mounted() && w.min
      ensures stackMin == old(stackMin) + [w]
      ensures styles == DockStyles(old(styles), stackMin, rootW, rootH)
      ensures log.events == old(log.events) + DockHooks(stackMin, |stackMin|) + [Event(w, OnMinimize)]
    {
      stackMin := stackMin + [w];
      w.min := true;
      assert Valid();
      UpdateMinStack();
      log.events := log.events + [Event(w, OnMinimize)];
    }

    /**
      `maximize(state)`; `maximize(false)` is `restore()`. Otherwise a natively
      fullscreen document is exited (when some window ever entered
      fullscreen), a docked window leaves the dock, and, unless the window is
      already maximized, its element covers the viewport left by its insets
      (its normal geometry is kept) and `onmaximize` is called.
     */
    method Maximize(w: Window, state: Option<bool>)
      requires Valid() && Mounted() && w in windows
      modifies this`nativeFullscreen, this`stackMin, this`styles, w`min, w`max, log
      ensures Valid() && Mounted()
      ensures state == Some(false) ==> Restored(w)
      ensures state != Some(false) ==>
        && w.max && !w.min
        && nativeFullscreen == (old(nativeFullscreen) && fullscreenWindow == null)
        && stackMin == (if old(w.min) then RemoveFromStack(old(stackMin), w) else old(stackMin))
      ensures state != Some(false) && old(w.max) ==> styles == old(styles) && log.events == old(log.events)
      ensures state != Some(false) && !old(w.max) ==>
        && styles == (if old(w.min) then DockStyles(old(styles), stackMin, rootW, rootH) else old(styles))
                       [w := w.MaxStyle(rootW, rootH)]
        && log.events == old(log.events) + (if old(w.min) then DockHooks(stackMin, |stackMin|) else [])
                         + RedrawHooks(w) + [Event(w, OnMaximize)]
    {
      if state == Some(false) {
        Restore(w);
        return;
      }
      if fullscreenWindow != null {
        var _ := CancelFullscreen();
      }
      if w.min {
        RemoveMinStack(w);
      }
      if !w.max {
        Expand(w);
      }
    }

    /**
      The maximizing step of `maximize()`: `resize(viewport width, viewport
      height, true).move(left, top, true)`, then `onmaximize`.
     */
    method Expand(w: Window)
      requires Valid() && Mounted() && w in windows && !w.min && !w.max
      modifies this`styles, w`max, log
      ensures Valid() && Mounted() && w.max
      ensures styles == old(styles)[w := w.MaxStyle(rootW, rootH)]
      ensures log.events == old(log.events) + RedrawHooks(w) + [Event(w, OnMaximize)]
    {
      ShowMaximized(w);
      w.max := true;
      log.events := log.events + [Event(w, OnMaximize)];
    }

    /** `resize(viewport width, viewport height, true).move(left, top, true)`: only the element changes. */
    method ShowMaximized(w: Window)
      requires w in styles
      modifies this`styles, log
      ensures styles == old(styles)[w := w.MaxStyle(rootW, rootH)]
      ensures log.events == old(log.events) + RedrawHooks(w)
    {
      ResizeWindow(w, Some(rootW - w.left - w.right), Some(rootH - w.top - w.bottom), true);
      MoveWindow(w, Some(w.left), Some(w.top), true);
    }

    /**
      `fullscreen(state)`. A docked window first leaves the dock and shows its
      normal geometry. Then, unless a window ever entered fullscreen and the
      document is natively fullscreen (which is exited instead), the window
      requests native fullscreen when the browser offers it, becomes the
      fullscreen window and `onfullscreen` is called. Only when fullscreen was
      exited does `fullscreen(false)` go on to `restore()`.
     */
    method Fullscreen(w: Window, state: Option<bool>)
      requires Valid() && Mounted() && w in windows
      modifies this`nativeFullscreen, this`fullscreenWindow, this`stackMin, this`styles
      modifies w`min, w`max, w`full, log
      ensures Valid() && Mounted() && !w.min
      ensures stackMin == (if old(w.min) then RemoveFromStack(old(stackMin), w) else old(stackMin))
      ensures old(w.min) ==> styles == DockStyles(old(styles), stackMin, rootW, rootH)[w := w.FrameStyle()]
      ensures ExitedFullscreen(w, state, old(fullscreenWindow) != null && old(nativeFullscreen), old(w.min))
    {
      if w.min {
        UndockThenFullscreen(w, state);
      } else {
        EnterOrExitFullscreen(w, state);
      }
    }

    /** `fullscreen(state)` for a docked window: leave the dock, then the fullscreen step. */
    method UndockThenFullscreen(w: Window, state: Option<bool>)
      requires Valid() && Mounted() && w in windows && w.min
      modifies this`nativeFullscreen, this`fullscreenWindow, this`stackMin, this`styles
      modifies w`min, w`max, w`full, log
      ensures Valid() && Mounted() && !w.min
      ensures stackMin == RemoveFromStack(old(stackMin), w)
      ensures styles == DockStyles(old(styles), stackMin, rootW, rootH)[w := w.FrameStyle()]
      ensures ExitedFullscreen(w, state, old(fullscreenWindow) != null && old(nativeFullscreen), true)
    {
      Undock(w);
      EnterOrExitFullscreen(w, state);
    }

    /**
      What the fullscreen step of `fullscreen(state)` did, after a docked
      window (`undocked`) was undocked: when fullscreen was not `exited`, the
      window entered it if the browser offers it; when it was exited,
      `fullscreen(false)` unmaximized a maximized window.
     */
    twostate predicate ExitedFullscreen(w: Window, state: Option<bool>, exited: bool, undocked: bool)
      reads this, w, log
    {
      var unmaximized := exited && state == Some(false) && old(w.max);
      && w.max == (old(w.max) && !unmaximized)
      && (!exited && canFullscreen ==> nativeFullscreen && fullscreenWindow == w && w.full)
      && (!exited && !canFullscreen ==>
            nativeFullscreen == old(nativeFullscreen) && fullscreenWindow == old(fullscreenWindow) && w.full == old(w.full))
      && (exited ==> !nativeFullscreen && fullscreenWindow == old(fullscreenWindow) && w.full == old(w.full))
      && (!undocked ==> styles == (if unmaximized then old(styles)[w := w.FrameStyle()] else old(styles)))
      && var before := if undocked then old(log.events) + DockHooks(stackMin, |stackMin|) + RedrawHooks(w)
                       else old(log.events);
      && (!exited && canFullscreen ==> log.events == before + [Event(w, OnFullscreen)])
      && (unmaximized ==> log.events == before + RedrawHooks(w) + [Event(w, OnRestore)])
      && (!(!exited && canFullscreen) && !unmaximized ==> log.events == before)
    }

    /** The fullscreen step of `fullscreen(state)`, for a window that is not docked. */
    method EnterOrExitFullscreen(w: Window, state: Option<bool>)
      requires Valid() && Mounted() && w in windows && !w.min
      modifies this`nativeFullscreen, this`fullscreenWindow, this`stackMin, this`styles
      modifies w`min, w`max, w`full, log
      ensures Valid() && Mounted() && !w.min && stackMin == old(stackMin)
      ensures ExitedFullscreen(w, state, old(fullscreenWindow) != null && old(nativeFullscreen), false)
    {
      var enter := true;
      if fullscreenWindow != null {
        var exited := CancelFullscreen();
        enter := !exited;
      }
      if enter {
        if canFullscreen {
          EnterFullscreen(w);
        }
      } else if state == Some(false) {
        Restore(w);
      }
    }

    /** The granted fullscreen request: the window becomes the fullscreen window and `onfullscreen` is called. */
    method EnterFullscreen(w: Window)
      modifies this`nativeFullscreen, this`fullscreenWindow, w`full, log
      ensures nativeFullscreen && fullscreenWindow == w && w.full
      ensures log.events == old(log.events) + [Event(w, OnFullscreen)]
    {
      nativeFullscreen := true;
      fullscreenWindow := w;
      w.full := true;
      log.events := log.events + [Event(w, OnFullscreen)];
    }

    /**
      `close(force)`. `onclose(force)` is called first; its answer `veto`
      cancels the close, which then changes nothing else. Otherwise a docked
      window leaves the dock, the window and its element are gone, and the
      focus is dropped if the window had it.
     */
    method Close(w: Window, force: bool, veto: bool) returns (vetoed: bool)
      requires Valid() && Mounted() && w in windows
      modifies this`stackMin, this`styles, this`windows, this`lastFocus, w`min, log
      ensures Valid() && Mounted() && vetoed == veto
      ensures veto ==>
        && windows == old(windows) && stackMin == old(stackMin) && styles == old(styles)
        && lastFocus == old(lastFocus) && w.min == old(w.min)
        && log.events == old(log.events) + [Event(w, OnClose(force))]
      ensures !veto ==>
        && windows == old(windows) - {w}
        && stackMin == (if old(w.min) then RemoveFromStack(old(stackMin), w) else old(stackMin))
        && styles == (if old(w.min) then DockStyles(old(styles), stackMin, rootW, rootH) else old(styles)) - {w}
        && lastFocus == (if old(lastFocus) == w then null else old(lastFocus))
        && log.events == old(log.events) + [Event(w, OnClose(force))]
             + (if old(w.min) then DockHooks(stackMin, |stackMin|) else [])
    {
      log.events := log.events + [Event(w, OnClose(force))];
      if veto {
        return true;
      }
      if w.min {
        RemoveMinStack(w);
      }
      Unmount(w);
      return false;
    }

    /** The end of `close()`: the element leaves the document and the window forgets the focus. */
    method Unmount(w: Window)
      requires Valid() && Mounted() && w in windows && !w.min
      modifies this`styles, this`windows, this`lastFocus
      ensures Valid() && Mounted()
      ensures windows == old(windows) - {w} && styles == old(styles) - {w}
      ensures lastFocus == (if old(lastFocus) == w then null else old(lastFocus))
    {
      styles := styles - {w};
      windows := windows - {w};
      if lastFocus == w {
        lastFocus := null;
      }
    }

    /**
      The root's resize listener: the root size is measured again and the
      dock is laid out again in it.
     */
    method ViewportResized(width: real, height: real)
      requires Valid() && Mounted()
      modifies this`rootW, this`rootH, this`styles, log
      ensures Valid() && Mounted() && rootW == width && rootH == height
      ensures styles == DockStyles(old(styles), stackMin, width, height)
      ensures log.events == old(log.events) + DockHooks(stackMin, |stackMin|)
    {
      rootW, rootH := width, height;
      UpdateMinStack();
    }

    /**
      `new WinBox(options)`: the window gets the geometry resolved from its
      options and the current root size (`clientW` and `clientH` are the
      measured size of the content, for `autosize`), then it is maximized,
      minimized or shown at that geometry, and then it is hidden or focused,
      where a given `index` replaces the z-index the focus assigned and raises
      the counter to it.
     */
    method Open(o: Options, clientW: real, clientH: real) returns (w: Window)
      requires Valid() && Mounted()
      requires ResolveGeometry(o, rootW, rootH, clientW, clientH).Finite()
      modifies this`windows, this`styles, this`nativeFullscreen, this`stackMin, this`indexCounter, this`lastFocus, log
      modifies (if lastFocus == null then {} else {lastFocus})`focused
      ensures Valid() && Mounted() && fresh(w) && windows == old(windows) + {w}
      ensures w.max == o.max && w.min == (o.min && !o.max) && w.hidden == o.hidden && !w.full
      ensures stackMin == (if !o.max && o.min then old(stackMin) + [w] else old(stackMin))
      ensures w.focused == !o.hidden && (!o.hidden ==> lastFocus == w)
    {
      var g := ResolveGeometry(o, rootW, rootH, clientW, clientH);
      w := Mount(g, o);
      Initialize(w, o);
    }

    /** The initial status of a new window, then its visibility and focus. */
    method Initialize(w: Window, o: Options)
      requires Valid() && Mounted() && w in windows && w !in stackMin
      requires !w.min && !w.max && !w.hidden && !w.focused && w.index == 0
      modifies this`nativeFullscreen, this`stackMin, this`styles, this`indexCounter, this`lastFocus, log
      modifies w`min, w`max, w`index, w`focused, w`hidden
      modifies (if lastFocus == null then {} else {lastFocus})`focused
      ensures Valid() && Mounted()
      ensures w.max == o.max && w.min == (o.min && !o.max) && w.hidden == o.hidden
      ensures stackMin == (if !o.max && o.min then old(stackMin) + [w] else old(stackMin))
      ensures w.focused == !o.hidden && (!o.hidden ==> lastFocus == w)
    {
      Settle(w, o);
      Reveal(w, o);
    }

    /** The new window and its element, not yet in any state. */
    method Mount(g: Geometry, o: Options) returns (w: Window)
      requires Valid() && Mounted() && g.Finite()
      modifies this`windows, this`styles
      ensures Valid() && Mounted() && fresh(w) && windows == old(windows) + {w}
      ensures styles == old(styles)[w := Unstyled] && w !in stackMin
      ensures && w.Frame() == Rect(g.x.v, g.y.v, g.width.v, g.height.v)
        && w.Bounds() == Limits(g.minwidth.v, g.minheight.v, g.maxwidth.v, g.maxheight.v,
                                g.top.v, g.right.v, g.bottom.v, g.left.v, HeaderOf(o), o.overflow)
        && w.noMove == o.noMove && w.noMax == o.noMax
      ensures w.index == 0 && !w.min && !w.max && !w.full && !w.hidden && !w.focused
    {
      w := new Window(g, HeaderOf(o), o.overflow, o.noMove, o.noMax);
      windows := windows + {w};
      styles := styles[w := Unstyled];
    }

    /** The initial status of a new window: `maximize()`, else `minimize()`, else `resize().move()`. */
    method Settle(w: Window, o: Options)
      requires Valid() && Mounted() && w in windows && !w.min && !w.max
      modifies this`nativeFullscreen, this`stackMin, this`styles, w`min, w`max, log
      ensures Valid() && Mounted()
      ensures w.max == o.max && w.min == (o.min && !o.max)
      ensures nativeFullscreen == (old(nativeFullscreen) && (fullscreenWindow == null || !(o.min || o.max)))
      ensures o.max ==> stackMin == old(stackMin) && styles == old(styles)[w := w.MaxStyle(rootW, rootH)]
      ensures !o.max && o.min ==> stackMin == old(stackMin) + [w] && styles == DockStyles(old(styles), stackMin, rootW, rootH)
      ensures !o.max && !o.min ==> stackMin == old(stackMin) && styles == old(styles)[w := w.FrameStyle()]
    {
      if o.max {
        Maximize(w, None);
      } else if o.min {
        Minimize(w, None);
      } else {
        Redraw(w);
      }
    }

    /** A new window is hidden, or focused and given its requested z-index. */
    method Reveal(w: Window, o: Options)
      requires Valid() && w in windows && !w.hidden && !w.focused && w.index == 0
      modifies this`indexCounter, this`lastFocus, w`index, w`focused, w`hidden, log
      modifies (if lastFocus == null then {} else {lastFocus})`focused
      ensures Valid() && w.hidden == o.hidden
      ensures o.hidden ==>
        !w.focused && w.index == 0 && lastFocus == old(lastFocus) && indexCounter == old(indexCounter)
      ensures !o.hidden ==> w.focused && lastFocus == w
      ensures !o.hidden && o.index.None? ==>
        && w.index == indexCounter == old(indexCounter) + 1
        && forall v :: v in windows && v != w ==> v.index < w.index
      ensures !o.hidden && o.index.Some? ==>
        w.index == o.index.value && indexCounter == (if o.index.value > old(indexCounter) + 1 then o.index.value else old(indexCounter) + 1)
    {
      if o.hidden {
        Hide(w, None);
      } else {
        Focus(w, None);
        if o.index.Some? {
          w.index := o.index.value;
          if o.index.value > indexCounter {
            indexCounter := o.index.value;
          }
        }
      }
    }

    /**
      A press on handle `h` at time `now` (the `mousedown` listener): the
      window is focused first; then a title-bar press on a docked window
      restores it, a second title-bar press within 300 ms toggles maximize
      (unless `no-max` is set), and a press on a window that is not docked
      starts tracking the pointer from `page`.
     */
    method PointerDown(h: Handle, now: int, page: Point)
      requires Valid() && Mounted() && h.window in windows
      modifies this`nativeFullscreen, this`stackMin, this`styles, this`indexCounter, this`lastFocus, log
      modifies h.window`min, h.window`max, h.window`index, h.window`focused, h`tracking, h`anchor, h`lastPress
      modifies (if lastFocus == null then {} else {lastFocus})`focused
      ensures Valid() && Mounted() && h.window.focused && lastFocus == h.window
      ensures var p := Press(h.dir, old(h.window.min), h.window.noMax, now, old(h.lastPress));
        && h.lastPress == p.lastPress
        && (p.action == StartTracking ==> h.tracking && h.anchor == page)
        && (p.action != StartTracking ==> h.tracking == old(h.tracking) && h.anchor == old(h.anchor))
        && (p.action == RestoreDocked ==> !h.window.min && stackMin == RemoveFromStack(old(stackMin), h.window))
        && (p.action == ToggleMaximize ==> h.window.max == !old(h.window.max) && !h.window.min)
        && (p.action == StartTracking || p.action == NoGesture ==>
              stackMin == old(stackMin) && h.window.min == old(h.window.min) && h.window.max == old(h.window.max))
    {
      Focus(h.window, None);
      StartGesture(h, now, page);
    }

    /** The gesture decision of a press, after the focus. */
    method StartGesture(h: Handle, now: int, page: Point)
      requires Valid() && Mounted() && h.window in windows
      modifies this`nativeFullscreen, this`stackMin, this`styles, log
      modifies h.window`min, h.window`max, h`tracking, h`anchor, h`lastPress
      ensures Valid() && Mounted()
      ensures var p := Press(h.dir, old(h.window.min), h.window.noMax, now, old(h.lastPress));
        && h.lastPress == p.lastPress
        && (p.action == StartTracking ==> h.tracking && h.anchor == page)
        && (p.action != StartTracking ==> h.tracking == old(h.tracking) && h.anchor == old(h.anchor))
        && (p.action == RestoreDocked ==> Restored(h.window))
        && (p.action == ToggleMaximize ==> h.window.max == !old(h.window.max) && !h.window.min)
        && (p.action == StartTracking || p.action == NoGesture ==>
              stackMin == old(stackMin) && h.window.min == old(h.window.min) && h.window.max == old(h.window.max))
    {
      var w := h.window;
      var p := Press(h.dir, w.min, w.noMax, now, h.lastPress);
      h.lastPress := p.lastPress;
      match p.action
      case RestoreDocked =>
        Restore(w);
      case ToggleMaximize =>
        if w.max {
          Restore(w);
        } else {
          Maximize(w, None);
        }
      case StartTracking =>
        h.tracking, h.anchor := true, page;
      case NoGesture =>
    }

    /**
      A pointer move while handle `h` tracks the pointer (the move listener):
      the tick's geometry becomes the window's normal geometry; a changed size
      is shown; a changed position is shown, after a maximized window has been
      restored; and the anchor moves on the axes that changed.
     */
    method PointerMove(h: Handle, page: Point) returns (t: Tick)
      requires Valid() && Mounted() && h.window in windows && h.tracking
      modifies h.window`x, h.window`y, h.window`width, h.window`height, h.window`min, h.window`max, h`anchor
      modifies this`nativeFullscreen, this`stackMin, this`styles, log
      ensures Valid() && Mounted()
      ensures t == MoveTick(h.dir, h.window.noMove, old(h.window.max), old(h.window.Frame()), h.window.Bounds(),
                            rootW, rootH, old(h.anchor), page)
      ensures h.window.Frame() == t.rect && h.anchor == t.anchor && stackMin == old(stackMin)
      ensures h.window.max == (old(h.window.max) && !(t.moveX || t.moveY))
      // a maximized window that moves is restored, which exits native fullscreen
      ensures nativeFullscreen == (old(nativeFullscreen) && (fullscreenWindow == null || !((t.moveX || t.moveY) && old(h.window.max))))
      ensures var w := h.window;
        var resized := t.resizeW || t.resizeH;
        var moved := t.moveX || t.moveY;
        var s := old(styles[w]);
        && styles == old(styles)[w := if moved && old(w.max) then w.FrameStyle()
                                      else Style(if moved then t.rect.x else s.left, if moved then t.rect.y else s.top,
                                                 if resized then t.rect.width else s.width,
                                                 if resized then t.rect.height else s.height)]
        && log.events == old(log.events) + (if resized then [Event(w, OnResize)] else [])
             + (if moved && old(w.max) then RedrawHooks(w) + [Event(w, OnRestore)] else [])
             + (if moved then [Event(w, OnMove)] else [])
    {
      var w := h.window;
      t := MoveTick(h.dir, w.noMove, w.max, w.Frame(), w.Bounds(), rootW, rootH, h.anchor, page);
      ApplyTick(h, t);
    }

    /** The effect of a tick: the new normal geometry, the commits, the new anchor. */
    method ApplyTick(h: Handle, t: Tick)
      requires Valid() && Mounted() && h.window in windows
      modifies h.window`x, h.window`y, h.window`width, h.window`height, h.window`min, h.window`max, h`anchor
      modifies this`nativeFullscreen, this`stackMin, this`styles, log
      ensures Valid() && Mounted()
      ensures h.window.Frame() == t.rect && h.anchor == t.anchor && stackMin == old(stackMin)
      ensures h.window.max == (old(h.window.max) && !(t.moveX || t.moveY))
      // a maximized window that moves is restored, which exits native fullscreen
      ensures nativeFullscreen == (old(nativeFullscreen) && (fullscreenWindow == null || !((t.moveX || t.moveY) && old(h.window.max))))
      ensures var w := h.window;
        var resized := t.resizeW || t.resizeH;
        var moved := t.moveX || t.moveY;
        var s := old(styles[w]);
        && styles == old(styles)[w := if moved && old(w.max) then w.FrameStyle()
                                      else Style(if moved then t.rect.x else s.left, if moved then t.rect.y else s.top,
                                                 if resized then t.rect.width else s.width,
                                                 if resized then t.rect.height else s.height)]
        && log.events == old(log.events) + (if resized then [Event(w, OnResize)] else [])
             + (if moved && old(w.max) then RedrawHooks(w) + [Event(w, OnRestore)] else [])
             + (if moved then [Event(w, OnMove)] else [])
    {
      var w := h.window;
      w.SetFrame(t.rect);
      Commit(w, t.resizeW || t.resizeH, t.moveX || t.moveY);
      h.anchor := t.anchor;
    }

    /**
      The end of a tick, after the normal geometry changed: `resize()` when the
      size changed, and when the position changed `move()`, preceded by
      `restore()` for a maximized window.
     */
    method Commit(w: Window, resized: bool, moved: bool)
      requires Valid() && Mounted() && w in windows
      modifies this`nativeFullscreen, this`stackMin, this`styles, w`min, w`max, log
      ensures Valid() && Mounted() && stackMin == old(stackMin) && w.max == (old(w.max) && !moved)
      ensures nativeFullscreen == (old(nativeFullscreen) && (fullscreenWindow == null || !(moved && old(w.max))))
      ensures var s := old(styles[w]);
        styles == old(styles)[w := if moved && old(w.max) then w.FrameStyle()
                                   else Style(if moved then w.x else s.left, if moved then w.y else s.top,
                                              if resized then w.width else s.width,
                                              if resized then w.height else s.height)]
      ensures log.events == old(log.events) + (if resized then [Event(w, OnResize)] else [])
        + (if moved && old(w.max) then RedrawHooks(w) + [Event(w, OnRestore)] else [])
        + (if moved then [Event(w, OnMove)] else [])
    {
      if resized {
        ResizeWindow(w, None, None, false);
      }
      if moved {
        CommitMove(w);
      }
    }

    /** `restore()` for a maximized window, then `move()`: the element shows the normal position. */
    method CommitMove(w: Window)
      requires Valid() && Mounted() && w in windows
      modifies this`nativeFullscreen, this`stackMin, this`styles, w`min, w`max, log
      ensures Valid() && Mounted() && stackMin == old(stackMin) && !w.max
      ensures nativeFullscreen == (old(nativeFullscreen) && (fullscreenWindow == null || !old(w.max)))
      ensures styles == old(styles)[w := if old(w.max) then w.FrameStyle() else old(styles[w]).(left := w.x, top := w.y)]
      ensures log.events == old(log.events)
        + (if old(w.max) then RedrawHooks(w) + [Event(w, OnRestore)] else []) + [Event(w, OnMove)]
    {
      if w.max {
        Restore(w);
      }
      MoveWindow(w, None, None, false);
    }

    /** The end of a gesture (the up listener): the handle stops tracking the pointer. */
    method PointerUp(h: Handle)
      modifies h`tracking
      ensures !h.tracking
    {
      h.tracking := false;
    }

    /**
      Maximizing a window in the normal state and restoring it leaves its
      normal geometry alone and shows it again: the element ends up as it
      would be had the window only been redrawn.
     */
    method MaximizeThenRestore(w: Window)
      requires Valid() && Mounted() && w in windows && !w.min && !w.max
      modifies this`nativeFullscreen, this`stackMin, this`styles, w`min, w`max, log
      ensures Valid() && Mounted() && !w.min && !w.max && stackMin == old(stackMin)
      ensures styles == old(styles)[w := w.FrameStyle()] && w.Frame() == old(w.Frame())
      ensures log.events == old(log.events) + RedrawHooks(w) + [Event(w, OnMaximize)] + RedrawHooks(w) + [Event(w, OnRestore)]
    {
      Maximize(w, None);
      Restore(w);
    }

    /**
      Minimizing a window in the normal state and restoring it puts the stack
      back as it was, and the dock as a layout of that stack shows it: only the
      window's own element changes, to show its normal geometry.
     */
    method MinimizeThenRestore(w: Window)
      requires Valid() && Mounted() && w in windows && !w.min && !w.max
      modifies this`nativeFullscreen, this`stackMin, this`styles, w`min, w`max, log
      ensures Valid() && Mounted() && !w.min && !w.max && stackMin == old(stackMin)
      ensures styles == DockStyles(old(styles), stackMin, rootW, rootH)[w := w.FrameStyle()]
    {
      ghost var s, before := stackMin, styles;
      Minimize(w, None);
      RemoveAfterPush(s, w);
      Restore(w);
      RedockForgets(before, s, w, rootW, rootH, w.FrameStyle());
    }
  }
}
