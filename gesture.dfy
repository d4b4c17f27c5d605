/**
  The pointer gesture on one of a window's nine handles (the title bar, which
  drags, and eight resize edges). A press decides what the gesture is; each
  pointer move is one tick that applies the pointer's offset since the anchor,
  clamps the result and reports which of the four quantities changed.
 */
module Gesture {
  import opened JsNumbers

  /** The handle: the drag region or one of the eight compass edges. */
  datatype Dir = Drag | N | S | W | E | NW | NE | SE | SW

  predicate MovesEastEdge(d: Dir) { d == E || d == SE || d == NE }
  predicate MovesWestEdge(d: Dir) { d == W || d == SW || d == NW }
  predicate MovesSouthEdge(d: Dir) { d == S || d == SE || d == SW }
  predicate MovesNorthEdge(d: Dir) { d == N || d == NE || d == NW }

  datatype Rect = Rect(x: real, y: real, width: real, height: real)
  datatype Point = Point(x: real, y: real)

  /**
    The fixed limits of a window: size bounds, viewport insets, header height
    and the overflow flag.
   */
  datatype Limits = Limits(
    minwidth: real, minheight: real, maxwidth: real, maxheight: real,
    top: real, right: real, bottom: real, left: real,
    header: real, overflow: bool)

  /** The outcome of one tick: the new geometry, the new anchor and the four commit flags. */
  datatype Tick = Tick(rect: Rect, anchor: Point, resizeW: bool, resizeH: bool, moveX: bool, moveY: bool)

  /** Two presses closer than this many milliseconds are a double click. */
  const DoubleClickMs: int := 300

  /** With `overflow`, this much of the window stays visible at a side of the root. */
  const OverflowMargin: real := 30.0

  function Min3(a: real, b: real, c: real): (r: real)
    ensures r <= a && r <= b && r <= c && (r == a || r == b || r == c)
  {
    RealMin(RealMin(a, b), c)
  }

  /**
    A tentative width clamped by the maximum and the room left to the right
    edge, then by the minimum.
   */
  function ClampWidth(width: real, x: real, lim: Limits, rootW: real): (r: real)
    ensures r >= lim.minwidth
    ensures r > lim.minwidth ==> r <= lim.maxwidth && x + r <= rootW - lim.right
    ensures lim.minwidth <= width <= lim.maxwidth && x + width <= rootW - lim.right ==> r == width
  {
    RealMax(Min3(width, lim.maxwidth, rootW - x - lim.right), lim.minwidth)
  }

  /** The same for the height, against the bottom inset. */
  function ClampHeight(height: real, y: real, lim: Limits, rootH: real): (r: real)
    ensures r >= lim.minheight
    ensures r > lim.minheight ==> r <= lim.maxheight && y + r <= rootH - lim.bottom
    ensures lim.minheight <= height <= lim.maxheight && y + height <= rootH - lim.bottom ==> r == height
  {
    RealMax(Min3(height, lim.maxheight, rootH - y - lim.bottom), lim.minheight)
  }

  /**
    A tentative x clamped into the viewport, or, with `overflow`, so that at
    least 30 pixels stay visible on either side.
   */
  function ClampX(x: real, width: real, lim: Limits, rootW: real): (r: real)
    ensures !lim.overflow ==> r >= lim.left && (r > lim.left ==> r + width + lim.right <= rootW)
    ensures lim.overflow ==> r + width >= OverflowMargin && (r + width > OverflowMargin ==> r <= rootW - OverflowMargin)
    ensures !lim.overflow && lim.left <= x && x + width + lim.right <= rootW ==> r == x
  {
    RealMax(
      RealMin(x, if lim.overflow then rootW - OverflowMargin else rootW - width - lim.right),
      if lim.overflow then OverflowMargin - width else lim.left)
  }

  /**
    A tentative y clamped into the viewport, or, with `overflow`, so that the
    header stays visible at the bottom. The top inset is never crossed.
   */
  function ClampY(y: real, height: real, lim: Limits, rootH: real): (r: real)
    ensures r >= lim.top
    ensures r > lim.top ==> r <= (if lim.overflow then rootH - lim.header else rootH - height - lim.bottom)
    ensures lim.top <= y && y + height + lim.bottom <= rootH && !lim.overflow ==> r == y
  {
    RealMax(
      RealMin(y, if lim.overflow then rootH - lim.header else rootH - height - lim.bottom),
      lim.top)
  }

  /**
    Where a maximized window dragged by the pointer at `pageX` snaps back to:
    the left third of the root puts it on the left inset, the right third flush
    with the right inset, the middle third centred.
   */
  function SnapX(pageX: real, width: real, lim: Limits, rootW: real): (x: real)
    ensures pageX < rootW / 3.0 ==> x == lim.left
    ensures pageX > rootW / 3.0 * 2.0 && !(pageX < rootW / 3.0) ==> x + width + lim.right == rootW
    ensures rootW / 3.0 <= pageX <= rootW / 3.0 * 2.0 ==> 2.0 * x + width == rootW
  {
    if pageX < rootW / 3.0 then lim.left
    else if pageX > rootW / 3.0 * 2.0 then rootW - width - lim.right
    else rootW / 2.0 - width / 2.0
  }

  /**
    One pointer-move tick on handle `dir`, for a window with geometry `g`
    that is maximized or not, with the pointer now at `page` and the anchor
    left by the previous tick. A drag on a window marked `no-move` does nothing.
   */
  function MoveTick(dir: Dir, noMove: bool, maximized: bool, g: Rect, lim: Limits,
                    rootW: real, rootH: real, anchor: Point, page: Point): (t: Tick)
    // a resize (resp. a move) is committed on an axis exactly when that quantity changed
    ensures t.resizeW <==> t.rect.width != g.width
    ensures t.resizeH <==> t.rect.height != g.height
    ensures t.moveX <==> t.rect.x != g.x
    ensures t.moveY <==> t.rect.y != g.y
    // the anchor follows the pointer only on an axis that committed something
    ensures t.anchor.x == (if t.resizeW || t.moveX then page.x else anchor.x)
    ensures t.anchor.y == (if t.resizeH || t.moveY then page.y else anchor.y)
    // a handle touches only its own axes; a no-move drag changes nothing at all
    ensures dir == Drag ==> t.rect.width == g.width && t.rect.height == g.height
    ensures dir != Drag && !MovesWestEdge(dir) ==> t.rect.x == g.x
    ensures dir != Drag && !MovesNorthEdge(dir) ==> t.rect.y == g.y
    ensures !MovesEastEdge(dir) && !MovesWestEdge(dir) ==> t.rect.width == g.width
    ensures !MovesSouthEdge(dir) && !MovesNorthEdge(dir) ==> t.rect.height == g.height
    ensures dir == Drag && noMove ==> t == Tick(g, anchor, false, false, false, false)
  {
    if dir == Drag && noMove then Tick(g, anchor, false, false, false, false)
    else
      var offX := page.x - anchor.x;
      var offY := page.y - anchor.y;
      var touchW := MovesEastEdge(dir) || MovesWestEdge(dir);
      var touchX := dir == Drag || MovesWestEdge(dir);
      var touchH := MovesSouthEdge(dir) || MovesNorthEdge(dir);
      var touchY := dir == Drag || MovesNorthEdge(dir);
      // the size first: the offset applied to the edge the handle moves, then clamped
      // against the tentative position
      var w2 := if MovesEastEdge(dir) then ClampWidth(g.width + offX, g.x, lim, rootW)
                else if MovesWestEdge(dir) then ClampWidth(g.width - offX, g.x + offX, lim, rootW)
                else g.width;
      var h2 := if MovesSouthEdge(dir) then ClampHeight(g.height + offY, g.y, lim, rootH)
                else if MovesNorthEdge(dir) then ClampHeight(g.height - offY, g.y + offY, lim, rootH)
                else g.height;
      var resizeW := touchW && w2 != g.width;
      var resizeH := touchH && h2 != g.height;
      // then the position; a maximized window first snaps out under the pointer
      var x2 := if !touchX then g.x
                else if maximized then ClampX(SnapX(page.x, w2, lim, rootW) + offX, w2, lim, rootW)
                else ClampX(g.x + offX, w2, lim, rootW);
      var y2 := if !touchY then g.y
                else if maximized then ClampY(lim.top + offY, h2, lim, rootH)
                else ClampY(g.y + offY, h2, lim, rootH);
      var moveX := touchX && x2 != g.x;
      var moveY := touchY && y2 != g.y;
      Tick(Rect(x2, y2, w2, h2),
           Point(if resizeW || moveX then page.x else anchor.x, if resizeH || moveY then page.y else anchor.y),
           resizeW, resizeH, moveX, moveY)
  }

  /**
    An east-edge tick widens the window by the horizontal offset, a west-edge
    tick narrows it by that offset; either is then clamped.
   */
  lemma TickWidthAppliesOffset(dir: Dir, noMove: bool, maximized: bool, g: Rect, lim: Limits,
                               rootW: real, rootH: real, anchor: Point, page: Point)
    ensures var t := MoveTick(dir, noMove, maximized, g, lim, rootW, rootH, anchor, page);
      var off := page.x - anchor.x;
      && (MovesEastEdge(dir) ==> t.rect.width == ClampWidth(g.width + off, g.x, lim, rootW))
      && (MovesWestEdge(dir) ==> t.rect.width == ClampWidth(g.width - off, g.x + off, lim, rootW))
  {
  }

  /**
    A drag or a west-edge tick moves the left edge by the horizontal offset,
    then clamps it; a maximized window is first snapped out under the pointer by
    the thirds rule.
   */
  lemma TickXAppliesOffset(dir: Dir, noMove: bool, maximized: bool, g: Rect, lim: Limits,
                           rootW: real, rootH: real, anchor: Point, page: Point)
    ensures var t := MoveTick(dir, noMove, maximized, g, lim, rootW, rootH, anchor, page);
      var off := page.x - anchor.x;
      (dir == Drag && !noMove) || MovesWestEdge(dir) ==>
        t.rect.x == if maximized then ClampX(SnapX(page.x, t.rect.width, lim, rootW) + off, t.rect.width, lim, rootW)
                    else ClampX(g.x + off, t.rect.width, lim, rootW)
  {
  }

  /**
    A south-edge tick makes the window taller by the vertical offset, a north-
    edge tick shorter by it; either is then clamped.
   */
  lemma TickHeightAppliesOffset(dir: Dir, noMove: bool, maximized: bool, g: Rect, lim: Limits,
                                rootW: real, rootH: real, anchor: Point, page: Point)
    ensures var t := MoveTick(dir, noMove, maximized, g, lim, rootW, rootH, anchor, page);
      var off := page.y - anchor.y;
      && (MovesSouthEdge(dir) ==> t.rect.height == ClampHeight(g.height + off, g.y, lim, rootH))
      && (MovesNorthEdge(dir) ==> t.rect.height == ClampHeight(g.height - off, g.y + off, lim, rootH))
  {
  }

  /**
    A drag or a north-edge tick moves the top edge by the vertical offset, then
    clamps it; a maximized window is first snapped out to the top inset.
   */
  lemma TickYAppliesOffset(dir: Dir, noMove: bool, maximized: bool, g: Rect, lim: Limits,
                           rootW: real, rootH: real, anchor: Point, page: Point)
    ensures var t := MoveTick(dir, noMove, maximized, g, lim, rootW, rootH, anchor, page);
      var off := page.y - anchor.y;
      (dir == Drag && !noMove) || MovesNorthEdge(dir) ==>
        t.rect.y == if maximized then ClampY(lim.top + off, t.rect.height, lim, rootH)
                    else ClampY(g.y + off, t.rect.height, lim, rootH)
  {
  }

  /**
    The clamps of a tick: a resized extent is at least its minimum, and above
    its minimum it is at most its maximum; a moved coordinate never leaves the
    top or left inset (without overflow), and above that inset the window's far
    edge stays inside the viewport.
   */
  lemma TickRespectsLimits(dir: Dir, noMove: bool, maximized: bool, g: Rect, lim: Limits,
                           rootW: real, rootH: real, anchor: Point, page: Point)
    requires !(dir == Drag && noMove)
    ensures var t := MoveTick(dir, noMove, maximized, g, lim, rootW, rootH, anchor, page);
      && (MovesEastEdge(dir) || MovesWestEdge(dir) ==>
            t.rect.width >= lim.minwidth && (t.rect.width > lim.minwidth ==> t.rect.width <= lim.maxwidth))
      && (MovesSouthEdge(dir) || MovesNorthEdge(dir) ==>
            t.rect.height >= lim.minheight && (t.rect.height > lim.minheight ==> t.rect.height <= lim.maxheight))
      && (MovesEastEdge(dir) && t.rect.width > lim.minwidth ==> t.rect.x + t.rect.width <= rootW - lim.right)
      && (MovesSouthEdge(dir) && t.rect.height > lim.minheight ==> t.rect.y + t.rect.height <= rootH - lim.bottom)
      && ((dir == Drag || MovesWestEdge(dir)) && !lim.overflow ==>
            t.rect.x >= lim.left && (t.rect.x > lim.left ==> t.rect.x + t.rect.width + lim.right <= rootW))
      && (dir == Drag || MovesNorthEdge(dir) ==> t.rect.y >= lim.top)
      && ((dir == Drag || MovesNorthEdge(dir)) && !lim.overflow && t.rect.y > lim.top ==>
            t.rect.y + t.rect.height + lim.bottom <= rootH)
  {
  }

  /**
    A drag whose target lies inside the viewport moves the window by exactly the
    pointer's offset.
   */
  lemma DragInRangeMovesByOffset(g: Rect, lim: Limits, rootW: real, rootH: real, anchor: Point, page: Point)
    requires !lim.overflow
    requires lim.left <= g.x + (page.x - anchor.x) && g.x + (page.x - anchor.x) + g.width + lim.right <= rootW
    requires lim.top <= g.y + (page.y - anchor.y) && g.y + (page.y - anchor.y) + g.height + lim.bottom <= rootH
    ensures var t := MoveTick(Drag, false, false, g, lim, rootW, rootH, anchor, page);
      t.rect == Rect(g.x + (page.x - anchor.x), g.y + (page.y - anchor.y), g.width, g.height)
  {
  }

  /** An east-edge tick within all limits widens the window by exactly the horizontal offset. */
  lemma EastInRangeGrowsByOffset(g: Rect, lim: Limits, rootW: real, rootH: real, anchor: Point, page: Point)
    requires var w := g.width + (page.x - anchor.x);
      lim.minwidth <= w <= lim.maxwidth && g.x + w <= rootW - lim.right
    ensures var t := MoveTick(E, false, false, g, lim, rootW, rootH, anchor, page);
      t.rect == Rect(g.x, g.y, g.width + (page.x - anchor.x), g.height)
  {
  }

  /**
    A west-edge tick within all limits moves the left edge by exactly the
    horizontal offset, keeping the right edge in place.
   */
  lemma WestInRangeMovesLeftEdge(g: Rect, lim: Limits, rootW: real, rootH: real, anchor: Point, page: Point)
    requires !lim.overflow
    requires var off := page.x - anchor.x; var w := g.width - off;
      && lim.minwidth <= w <= lim.maxwidth && g.x + off + w <= rootW - lim.right
      && lim.left <= g.x + off
    ensures var t := MoveTick(W, false, false, g, lim, rootW, rootH, anchor, page);
      && t.rect == Rect(g.x + (page.x - anchor.x), g.y, g.width - (page.x - anchor.x), g.height)
      && t.rect.x + t.rect.width == g.x + g.width
  {
  }

  /** A south-edge tick within all limits makes the window taller by exactly the vertical offset. */
  lemma SouthInRangeGrowsByOffset(g: Rect, lim: Limits, rootW: real, rootH: real, anchor: Point, page: Point)
    requires var h := g.height + (page.y - anchor.y);
      lim.minheight <= h <= lim.maxheight && g.y + h <= rootH - lim.bottom
    ensures var t := MoveTick(S, false, false, g, lim, rootW, rootH, anchor, page);
      t.rect == Rect(g.x, g.y, g.width, g.height + (page.y - anchor.y))
  {
  }

  /**
    A north-edge tick within all limits moves the top edge by exactly the
    vertical offset, keeping the bottom edge in place.
   */
  lemma NorthInRangeMovesTopEdge(g: Rect, lim: Limits, rootW: real, rootH: real, anchor: Point, page: Point)
    requires !lim.overflow
    requires var off := page.y - anchor.y; var h := g.height - off;
      && lim.minheight <= h <= lim.maxheight && g.y + off + h <= rootH - lim.bottom
      && lim.top <= g.y + off
    ensures var t := MoveTick(N, false, false, g, lim, rootW, rootH, anchor, page);
      && t.rect == Rect(g.x, g.y + (page.y - anchor.y), g.width, g.height - (page.y - anchor.y))
      && t.rect.y + t.rect.height == g.y + g.height
  {
  }

  /** A drag with the pointer at rest changes nothing and commits nothing, inside the viewport. */
  lemma DragAtRestIsStill(maximized: bool, g: Rect, lim: Limits, rootW: real, rootH: real, p: Point)
    requires !maximized && !lim.overflow
    requires lim.left <= g.x && g.x + g.width + lim.right <= rootW
    requires lim.top <= g.y && g.y + g.height + lim.bottom <= rootH
    ensures MoveTick(Drag, false, maximized, g, lim, rootW, rootH, p, p) == Tick(g, p, false, false, false, false)
  {
  }

  /** What a press on a handle starts. */
  datatype PressAction = RestoreDocked | ToggleMaximize | StartTracking | NoGesture

  /** The press decision and the handle's new last-press time. */
  datatype PressOutcome = PressOutcome(action: PressAction, lastPress: int)

  /**
    A press at time `now` on handle `dir` of a window that is minimized or not,
    whose `no-max` class is set or not, given the time of the previous counted
    press on this handle.
   */
  function Press(dir: Dir, minimized: bool, noMax: bool, now: int, lastPress: int): (p: PressOutcome)
    // a press on the title bar of a minimized window brings it back and starts nothing
    ensures p.action == RestoreDocked <==> dir == Drag && minimized
    // a second title-bar press within 300 ms toggles maximize, unless no-max is set
    ensures p.action == ToggleMaximize <==> dir == Drag && !minimized && !noMax && now - lastPress < DoubleClickMs
    // otherwise a gesture starts, except on a minimized window
    ensures p.action == StartTracking <==> !minimized && !(dir == Drag && !noMax && now - lastPress < DoubleClickMs)
    // only counted title-bar presses move the double-click clock
    ensures p.lastPress == (if dir == Drag && !minimized && !noMax then now else lastPress)
  {
    if dir == Drag && minimized then PressOutcome(RestoreDocked, lastPress)
    else if dir == Drag && !noMax && now - lastPress < DoubleClickMs then PressOutcome(ToggleMaximize, now)
    else
      var last := if dir == Drag && !noMax then now else lastPress;
      PressOutcome(if !minimized then StartTracking else NoGesture, last)
  }
}
