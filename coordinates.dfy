/**
  The coordinate resolver: turns a length written as a number, a keyword or a
  percentage into pixels against a base extent. The same function appears twice
  in the repository (src/winbox.ts and src/utils/parse.ts); it is modelled once.

  The string argument is abstracted into the shape `parseFloat` gives it, so that
  no number printing or parsing needs to be modelled:
  - `Center`, `RightOrBottom`: the exact strings "center", "right", "bottom";
  - `Percent(value)`: a string whose text after the printed parsed value is
    exactly "%" ("50%", but also "abc%", whose value is NaN);
  - `Plain(value)`: any other non-empty string, standing for its parsed
    numeric prefix ("120px" and "120" are both `Plain(Px(120.0))`, "abc" is
    `Plain(NaN)`);
  - `Empty`: the empty string, which parses like `Plain(NaN)` but is falsy.
  An omitted `center` argument is passed as NaN, which is what JavaScript
  arithmetic makes of `undefined`.
 */
module Coordinates {
  import opened JsNumbers

  datatype Arg =
    | Number(n: Num)
    | Empty
    | Center
    | RightOrBottom
    | Percent(value: Num)
    | Plain(value: Num)

  /** JavaScript truthiness of the argument: 0, NaN and "" are falsy. */
  predicate Truthy(a: Arg) {
    match a
    case Number(n) => n != Px(0.0) && n != NaN
    case Empty => false
    case _ => true
  }

  /** Truthiness of an optional argument (`undefined` is falsy). */
  predicate Given(o: Option<Arg>) {
    o.Some? && Truthy(o.value)
  }

  /** The resolver: a length in pixels, never an exception. */
  function Parse(a: Arg, base: Num, center: Num): (r: Num)
    // a number is already in pixels
    ensures a.Number? ==> r == a.n
    // an unrecognised string is its parsed numeric prefix, NaN when there is none
    ensures a.Plain? ==> r == a.value
    ensures a.Empty? ==> r.NaN?
    // "center" and "N%" go through `| 0`: always a whole 32-bit value, never NaN
    ensures (a.Center? || a.Percent?) ==> r.Px? && IsWhole(r.v) && -(TwoTo31 as real) <= r.v < TwoTo31 as real
    // "right"/"bottom" place the extent flush against the far edge
    ensures a.RightOrBottom? ==> (r.Px? <==> base.Px? && center.Px?)
    ensures a.RightOrBottom? && r.Px? ==> r.v + center.v == base.v
  {
    match a
    case Number(n) => n
    case Center => Px(OrZero(Div(Sub(base, center), 2.0)) as real)
    case RightOrBottom => Sub(base, center)
    case Percent(value) => Px(OrZero(Mul(Div(base, 100.0), value)) as real)
    case Empty => NaN
    case Plain(value) => value
  }

  /** A numeric argument is returned unchanged, whatever the base. */
  lemma ParseNumberUnchanged(n: Num, base: Num, center: Num)
    ensures Parse(Number(n), base, center) == n
  {
  }

  /** "center" halves the free space and truncates toward zero, which centres the extent to within a pixel. */
  lemma ParseCenterHalves(base: real, center: real)
    requires -(TwoTo31 as real) <= (base - center) / 2.0 < TwoTo31 as real
    ensures Parse(Center, Px(base), Px(center)) == Px(Trunc((base - center) / 2.0) as real)
    ensures var r := Parse(Center, Px(base), Px(center)).v;
      -2.0 < 2.0 * r + center - base < 2.0
  {
    OrZeroIsTrunc((base - center) / 2.0);
  }

  /** "right" and "bottom" yield `base - center`. */
  lemma ParseEdges(base: real, center: real)
    ensures Parse(RightOrBottom, Px(base), Px(center)) == Px(base - center)
  {
  }

  /** "N%" yields `trunc(base / 100 * N)`. */
  lemma ParsePercent(base: real, p: real)
    requires -(TwoTo31 as real) <= base / 100.0 * p < TwoTo31 as real
    ensures Parse(Percent(Px(p)), Px(base), NaN) == Px(Trunc(base / 100.0 * p) as real)
  {
    var m := base / 100.0 * p;
    assert Mul(Div(Px(base), 100.0), Px(p)) == Px(m);
    OrZeroIsTrunc(m);
  }

  /** Any other string yields its parsed numeric prefix: "120px" and "120" both give 120. */
  lemma ParseOtherStrings(v: real, base: Num, center: Num)
    ensures Parse(Plain(Px(v)), base, center) == Px(v)
  {
  }

  /**
    The resolver is total. A string without a numeric prefix gives NaN, while a
    NaN reaching `| 0` gives 0: "center" without a centred extent is 0, but
    "right" without one is NaN, and a percentage of a NaN value is 0.
   */
  lemma ParseTotal(base: Num)
    ensures Parse(Plain(NaN), base, NaN) == NaN
    ensures Parse(Empty, base, NaN) == NaN
    ensures Parse(Center, base, NaN) == Px(0.0)
    ensures Parse(RightOrBottom, base, NaN) == NaN
    ensures Parse(Percent(NaN), base, NaN) == Px(0.0)
  {
  }

  /** Worked values: "50%" of 200 is 100; a 40-wide extent in 200 centres at 80 and ends flush at 160. */
  lemma ResolverExamples(base: Num, center: Num)
    ensures Parse(Percent(Px(50.0)), Px(200.0), NaN) == Px(100.0)
    ensures Parse(Center, Px(200.0), Px(40.0)) == Px(80.0)
    ensures Parse(RightOrBottom, Px(200.0), Px(40.0)) == Px(160.0)
    ensures Parse(Number(Px(75.0)), base, center) == Px(75.0)
  {
    ParsePercent(200.0, 50.0);
    ParseCenterHalves(200.0, 40.0);
  }
}
