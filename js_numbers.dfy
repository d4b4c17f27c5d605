/**
  The slice of JavaScript number semantics the window manager relies on.

  Pixel values are exact reals. A JavaScript number that may be NaN is a `Num`;
  infinities are not represented. `x | 0` (the source's way of dropping the
  fraction) is `OrZero`: NaN becomes 0, everything else is truncated toward
  zero and wrapped to a signed 32-bit integer.
 */
module JsNumbers {

  /** An optional argument: `None` is JavaScript's `undefined`. */
  datatype Option<T> = None | Some(value: T) {
    function GetOr(default: T): T {
      match this
      case Some(v) => v
      case None => default
    }
  }

  /** A finite JavaScript number, or NaN. */
  datatype Num = Px(v: real) | NaN

  const TwoTo31: int := 0x8000_0000
  const TwoTo32: int := 0x1_0000_0000

  /** `a - b`; NaN is contagious. */
  function Sub(a: Num, b: Num): (r: Num)
    ensures r.Px? <==> a.Px? && b.Px?
    ensures r.Px? ==> r.v + b.v == a.v
  {
    if a.Px? && b.Px? then Px(a.v - b.v) else NaN
  }

  /** `a / k` for a non-zero finite constant divisor. */
  function Div(a: Num, k: real): (r: Num)
    requires k != 0.0
    ensures r.Px? <==> a.Px?
    ensures r.Px? ==> r.v * k == a.v
  {
    if a.Px? then Px(a.v / k) else NaN
  }

  /** `a * b`; NaN is contagious. */
  function Mul(a: Num, b: Num): (r: Num)
    ensures r.Px? <==> a.Px? && b.Px?
  {
    if a.Px? && b.Px? then Px(a.v * b.v) else NaN
  }

  /** `Math.min(a, b)`: NaN if either side is NaN. */
  function Min(a: Num, b: Num): (r: Num)
    ensures r.Px? <==> a.Px? && b.Px?
    ensures r.Px? ==> r.v <= a.v && r.v <= b.v && (r.v == a.v || r.v == b.v)
  {
    if a.Px? && b.Px? then Px(if a.v <= b.v then a.v else b.v) else NaN
  }

  /** `Math.max(a, b)`: NaN if either side is NaN. */
  function Max(a: Num, b: Num): (r: Num)
    ensures r.Px? <==> a.Px? && b.Px?
    ensures r.Px? ==> r.v >= a.v && r.v >= b.v && (r.v == a.v || r.v == b.v)
  {
    if a.Px? && b.Px? then Px(if a.v >= b.v then a.v else b.v) else NaN
  }

  function RealMin(a: real, b: real): (r: real)
    ensures r <= a && r <= b && (r == a || r == b)
  {
    if a <= b then a else b
  }

  function RealMax(a: real, b: real): (r: real)
    ensures r >= a && r >= b && (r == a || r == b)
  {
    if a >= b then a else b
  }

  /** Truncation toward zero (JavaScript's ToInt32 before the wrap). */
  function Trunc(r: real): (i: int)
    ensures r >= 0.0 ==> 0 <= i && i as real <= r < i as real + 1.0
    ensures r < 0.0 ==> i <= 0 && i as real - 1.0 < r <= i as real
  {
    if r >= 0.0 then r.Floor else -((-r).Floor)
  }

  /** The wrap of an integer into the signed 32-bit range. */
  function Wrap32(i: int): (w: int)
    ensures -TwoTo31 <= w < TwoTo31
    ensures (i - w) % TwoTo32 == 0
    ensures -TwoTo31 <= i < TwoTo31 ==> w == i
  {
    var m := i % TwoTo32;
    if m >= TwoTo31 then m - TwoTo32 else m
  }

  /** `x | 0`: NaN goes to 0, a finite value is truncated and wrapped to 32 bits. */
  function OrZero(a: Num): (i: int)
    ensures -TwoTo31 <= i < TwoTo31
    ensures a.NaN? ==> i == 0
  {
    if a.NaN? then 0 else Wrap32(Trunc(a.v))
  }

  /** Within the 32-bit range, `x | 0` is plain truncation toward zero. */
  lemma OrZeroIsTrunc(r: real)
    requires -(TwoTo31 as real) <= r < TwoTo31 as real
    ensures OrZero(Px(r)) == Trunc(r)
  {
    var t := Trunc(r);
    assert -TwoTo31 <= t < TwoTo31;
  }

  predicate IsWhole(r: real) {
    r.Floor as real == r
  }
}
