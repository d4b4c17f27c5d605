/**
  How a new window's geometry is resolved from its (possibly symbolic) options
  and the root viewport: insets first, then the viewport they leave, the size
  limits, the size itself and finally the position. Every symbolic value goes
  through the coordinate resolver, so a malformed option yields NaN, which then
  spreads through the arithmetic as it does in JavaScript.
 */
module Construction {
  import opened JsNumbers
  import opened Coordinates

  /**
    The construction options that the window state depends on; `None` is an
    omitted option. `noMove` and `noMax` say whether the `class` option names
    the `no-move` and `no-max` classes.
   */
  datatype Options = Options(
    top: Option<Arg>, left: Option<Arg>, bottom: Option<Arg>, right: Option<Arg>,
    maxwidth: Option<Arg>, maxheight: Option<Arg>,
    minwidth: Option<Arg>, minheight: Option<Arg>,
    width: Option<Arg>, height: Option<Arg>,
    x: Option<Arg>, y: Option<Arg>,
    header: Option<real>, border: Option<real>,
    autosize: bool, modal: bool, overflow: bool,
    min: bool, max: bool, hidden: bool, index: Option<int>,
    noMove: bool, noMax: bool)

  /** The resolved geometry, before it is known to be free of NaN. */
  datatype Geometry = Geometry(
    top: Num, left: Num, bottom: Num, right: Num,
    maxwidth: Num, maxheight: Num, minwidth: Num, minheight: Num,
    width: Num, height: Num, x: Num, y: Num)
  {
    predicate Finite() {
      top.Px? && left.Px? && bottom.Px? && right.Px? && maxwidth.Px? && maxheight.Px?
      && minwidth.Px? && minheight.Px? && width.Px? && height.Px? && x.Px? && y.Px?
    }
  }

  const DefaultHeader: real := 35.0
  const DefaultMinWidth: real := 150.0

  /** `params.header || 35`. */
  function HeaderOf(o: Options): (h: real)
    ensures o.header.Some? && o.header.value != 0.0 ==> h == o.header.value
    ensures o.header.None? || o.header.value == 0.0 ==> h == DefaultHeader
  {
    if o.header.Some? && o.header.value != 0.0 then o.header.value else DefaultHeader
  }

  /** A falsy border is replaced by 0. */
  function BorderOf(o: Options): real {
    if o.border.Some? then o.border.value else 0.0
  }

  /** An inset is resolved against the root extent, and is 0 when not given. */
  function Inset(o: Option<Arg>, rootExtent: real): (r: Num)
    ensures !Given(o) ==> r == Px(0.0)
  {
    if Given(o) then Parse(o.value, Px(rootExtent), NaN) else Px(0.0)
  }

  /** A maximum is resolved against the viewport, and is the whole viewport when not given. */
  function MaxExtent(o: Option<Arg>, viewport: Num): (r: Num)
    ensures !Given(o) ==> r == viewport
  {
    if Given(o) then Parse(o.value, viewport, NaN) else viewport
  }

  /** A minimum is resolved against the maximum, with a fixed default. */
  function MinExtent(o: Option<Arg>, max: Num, default: real): (r: Num)
    ensures !Given(o) ==> r == Px(default)
  {
    if Given(o) then Parse(o.value, max, NaN) else Px(default)
  }

  /** An auto-sized extent: the measured one, clamped into `[min, max]` (the minimum wins). */
  function AutoExtent(natural: real, min: Num, max: Num): (r: Num)
    ensures r.Px? <==> min.Px? && max.Px?
    ensures r.Px? ==> r.v >= min.v
    ensures r.Px? && min.v <= max.v ==> r.v <= max.v
    ensures r.Px? && min.v <= natural <= max.v ==> r.v == natural
  {
    Max(Min(Px(natural), max), min)
  }

  /** An extent that is neither given nor measured: half the maximum, but at least the minimum, truncated. */
  function DefaultExtent(min: Num, max: Num): (r: Num)
    ensures r.Px? && IsWhole(r.v)
    ensures min.Px? && max.Px? && -(TwoTo31 as real) <= RealMax(max.v / 2.0, min.v) < TwoTo31 as real ==>
      r.v == Trunc(RealMax(max.v / 2.0, min.v)) as real
  {
    var m := Max(Div(max, 2.0), min);
    if min.Px? && max.Px? && -(TwoTo31 as real) <= RealMax(max.v / 2.0, min.v) < TwoTo31 as real then
      OrZeroIsTrunc(m.v);
      Px(OrZero(m) as real)
    else
      Px(OrZero(m) as real)
  }

  /** One extent (width or height) of a new window. */
  function Extent(autosize: bool, o: Option<Arg>, natural: real, min: Num, max: Num): (r: Num)
    ensures autosize ==> r == AutoExtent(natural, min, max)
    ensures !autosize && !Given(o) ==> r == DefaultExtent(min, max)
  {
    if autosize then AutoExtent(natural, min, max)
    else if Given(o) then Parse(o.value, max, NaN)
    else DefaultExtent(min, max)
  }

  /** One coordinate of a new window: a modal window is centred, otherwise the option or the inset. */
  function Position(modal: bool, o: Option<Arg>, inset: Num, viewport: Num, extent: Num): (r: Num)
    ensures modal ==> r == Parse(Center, viewport, extent)
    ensures !modal && o.None? ==> r == inset
  {
    Parse(if modal then Center else o.GetOr(Number(inset)), viewport, extent)
  }

  /**
    The resolved geometry. `clientW`/`clientH` are the measured natural size of
    the content, used only when `autosize` is set; they are widened by the
    border (twice horizontally, once vertically) and the header, as measured.
   */
  function ResolveGeometry(o: Options, rootW: real, rootH: real, clientW: real, clientH: real): (g: Geometry)
  {
    var header := HeaderOf(o);
    var border := BorderOf(o);
    var top := Inset(o.top, rootH);
    var bottom := Inset(o.bottom, rootH);
    var left := Inset(o.left, rootW);
    var right := Inset(o.right, rootW);
    var viewportW := Sub(Sub(Px(rootW), left), right);
    var viewportH := Sub(Sub(Px(rootH), top), bottom);
    var maxwidth := MaxExtent(o.maxwidth, viewportW);
    var maxheight := MaxExtent(o.maxheight, viewportH);
    var minwidth := MinExtent(o.minwidth, maxwidth, DefaultMinWidth);
    var minheight := MinExtent(o.minheight, maxheight, header);
    var width := Extent(o.autosize, o.width, clientW + border * 2.0 + 1.0, minwidth, maxwidth);
    var height := Extent(o.autosize, o.height, clientH + header + border + 1.0, minheight, maxheight);
    var x := Position(o.modal, o.x, left, viewportW, width);
    var y := Position(o.modal, o.y, top, viewportH, height);
    Geometry(top, left, bottom, right, maxwidth, maxheight, minwidth, minheight, width, height, x, y)
  }

  /** The width of the viewport left by a window's insets. */
  function ViewportW(g: Geometry, rootW: real): Num {
    Sub(Sub(Px(rootW), g.left), g.right)
  }

  /** The height of the viewport left by a window's insets. */
  function ViewportH(g: Geometry, rootH: real): Num {
    Sub(Sub(Px(rootH), g.top), g.bottom)
  }

  /**
    The defaults of construction: omitted insets are 0, the maximum is the whole
    viewport, the minimum is 150 wide and one header high, an unsized window is
    half its maximum (at least its minimum) in whole pixels, an auto-sized one is
    clamped into its limits, and an unplaced window sits on its insets.
   */
  lemma ResolveGeometryDefaults(o: Options, rootW: real, rootH: real, clientW: real, clientH: real)
    ensures var g := ResolveGeometry(o, rootW, rootH, clientW, clientH);
      && (!Given(o.top) ==> g.top == Px(0.0))
      && (!Given(o.left) ==> g.left == Px(0.0))
      && (!Given(o.bottom) ==> g.bottom == Px(0.0))
      && (!Given(o.right) ==> g.right == Px(0.0))
      && (!Given(o.maxwidth) && g.left.Px? && g.right.Px? ==> g.maxwidth == Px(rootW - g.left.v - g.right.v))
      && (!Given(o.maxheight) && g.top.Px? && g.bottom.Px? ==> g.maxheight == Px(rootH - g.top.v - g.bottom.v))
      && (!Given(o.minwidth) ==> g.minwidth == Px(DefaultMinWidth))
      && (!Given(o.minheight) ==> g.minheight == Px(HeaderOf(o)))
      && (!o.autosize && !Given(o.width) ==> g.width.Px? && IsWhole(g.width.v))
      && (!o.autosize && !Given(o.height) ==> g.height.Px? && IsWhole(g.height.v))
      && (o.autosize && g.Finite() ==> g.width.v >= g.minwidth.v && g.height.v >= g.minheight.v)
      && (o.autosize && g.Finite() && g.minwidth.v <= g.maxwidth.v ==> g.width.v <= g.maxwidth.v)
      && (o.autosize && g.Finite() && g.minheight.v <= g.maxheight.v ==> g.height.v <= g.maxheight.v)
      && (!o.modal && o.x.None? ==> g.x == g.left)
      && (!o.modal && o.y.None? ==> g.y == g.top)
  {
  }

  /** A modal window's position centres it in its viewport to within a pixel. */
  lemma ModalIsCentred(o: Options, rootW: real, rootH: real, clientW: real, clientH: real)
    requires o.modal
    requires var g := ResolveGeometry(o, rootW, rootH, clientW, clientH);
      g.Finite() && ViewportW(g, rootW).Px? &&
      -(TwoTo31 as real) <= (ViewportW(g, rootW).v - g.width.v) / 2.0 < TwoTo31 as real
    ensures var g := ResolveGeometry(o, rootW, rootH, clientW, clientH);
      -2.0 < 2.0 * g.x.v + g.width.v - ViewportW(g, rootW).v < 2.0
  {
    var g := ResolveGeometry(o, rootW, rootH, clientW, clientH);
    ParseCenterHalves(ViewportW(g, rootW).v, g.width.v);
  }

  /** No options at all. */
  const NoOptions: Options := Options(
    None, None, None, None, None, None, None, None, None, None, None, None,
    None, None, false, false, false,
    false, false, false, None,
    false, false)

  /**
    A 250 by 200 window centred in a 1000 by 800 root without insets lands at
    (375, 300); without any options a window in that root is 500 by 400 at the
    top-left corner.
   */
  lemma CentredWindowExample()
    ensures var o := NoOptions.(width := Some(Number(Px(250.0))), height := Some(Number(Px(200.0))),
                                x := Some(Center), y := Some(Center));
      var g := ResolveGeometry(o, 1000.0, 800.0, 0.0, 0.0);
      g.x == Px(375.0) && g.y == Px(300.0) && g.width == Px(250.0) && g.height == Px(200.0)
    ensures var g := ResolveGeometry(NoOptions, 1000.0, 800.0, 0.0, 0.0);
      g.x == Px(0.0) && g.y == Px(0.0) && g.width == Px(500.0) && g.height == Px(400.0)
      && g.minwidth == Px(150.0) && g.minheight == Px(35.0)
  {
    ParseCenterHalves(1000.0, 250.0);
    ParseCenterHalves(800.0, 200.0);
    OrZeroIsTrunc(500.0);
    OrZeroIsTrunc(400.0);
  }
}
