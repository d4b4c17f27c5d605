/**
  The minimized-window dock. Minimized windows form an ordered stack; windows
  whose (left, top) insets coincide share a dock row, split into equal slots
  (at most 250 wide) in stack order. The layout is recomputed from scratch from
  the stack every time, so it is a function of the stack alone.
 */
module Dock {
  import opened JsNumbers

  /** The group key: in the source, the string `left + ":" + top`. */
  datatype Key = Key(left: real, top: real)

  /** What the layout needs from a minimized window: its insets and header height. */
  datatype Anchor = Anchor(left: real, top: real, right: real, bottom: real, header: real) {
    function Group(): Key { Key(left, top) }
  }

  /** A dock slot, as written to the window's style. */
  datatype Slot = Slot(x: int, y: real, width: int, height: real)

  const MaxSlotWidth: real := 250.0

  /** The groups of the first `n` stack entries. */
  function KeysOf(anchors: seq<Anchor>, n: nat): set<Key>
    requires n <= |anchors|
  {
    if n == 0 then {} else KeysOf(anchors, n - 1) + {anchors[n - 1].Group()}
  }

  /** How many of the first `n` stack entries belong to group `k`. */
  function GroupCount(anchors: seq<Anchor>, n: nat, k: Key): nat
    requires n <= |anchors|
  {
    if n == 0 then 0 else GroupCount(anchors, n - 1, k) + (if anchors[n - 1].Group() == k then 1 else 0)
  }

  /** A group is counted exactly when it occurs. */
  lemma {:induction false} GroupCountPositive(anchors: seq<Anchor>, n: nat, k: Key)
    requires n <= |anchors|
    ensures GroupCount(anchors, n, k) > 0 <==> k in KeysOf(anchors, n)
  {
    if n > 0 {
      GroupCountPositive(anchors, n - 1, k);
    }
  }

  /** Counting more entries never counts fewer members. */
  lemma {:induction false} GroupCountGrows(anchors: seq<Anchor>, m: nat, n: nat, k: Key)
    requires m <= n <= |anchors|
    ensures GroupCount(anchors, m, k) <= GroupCount(anchors, n, k)
    decreases n - m
  {
    if m < n {
      GroupCountGrows(anchors, m, n - 1, k);
    }
  }

  /** Only the first `n` entries matter to the count of the first `n`. */
  lemma {:induction false} GroupCountPrefix(a: seq<Anchor>, b: seq<Anchor>, n: nat, k: Key)
    requires n <= |a| && n <= |b|
    requires forall i :: 0 <= i < n ==> a[i] == b[i]
    ensures GroupCount(a, n, k) == GroupCount(b, n, k)
  {
    if n > 0 {
      GroupCountPrefix(a, b, n - 1, k);
    }
  }

  /** The size of the i-th entry's group. */
  function GroupSize(anchors: seq<Anchor>, i: nat): nat
    requires i < |anchors|
  {
    GroupCount(anchors, |anchors|, anchors[i].Group())
  }

  /** The i-th entry's position inside its group: how many same-group entries precede it. */
  function GroupPosition(anchors: seq<Anchor>, i: nat): nat
    requires i < |anchors|
  {
    GroupCount(anchors, i, anchors[i].Group())
  }

  /** The position of an entry lies inside its group: `0 <= position < group size`. */
  lemma {:induction false} GroupPositionBound(anchors: seq<Anchor>, i: nat)
    requires i < |anchors|
    ensures GroupPosition(anchors, i) < GroupSize(anchors, i)
  {
    GroupCountGrows(anchors, i + 1, |anchors|, anchors[i].Group());
  }

  /** Same-group entries get strictly increasing positions in stack order: slots are distinct and stable. */
  lemma {:induction false} GroupPositionsIncrease(anchors: seq<Anchor>, i: nat, j: nat)
    requires i < j < |anchors| && anchors[i].Group() == anchors[j].Group()
    ensures GroupPosition(anchors, i) < GroupPosition(anchors, j)
  {
    GroupCountGrows(anchors, i + 1, j, anchors[i].Group());
  }

  /** The width of each slot of a group of `size` windows: the viewport split evenly, at most 250. */
  function SlotWidth(a: Anchor, size: nat, rootW: real): (w: real)
    requires size > 0
    ensures w <= MaxSlotWidth
    ensures w * size as real <= rootW - a.left - a.right
  {
    RealMin((rootW - a.left - a.right) / size as real, MaxSlotWidth)
  }

  /**
    The slot of the window at `position` in a group of `size`: a strip one
    header high on the bottom inset, starting `position` slot widths from the
    left inset and one pixel wider than a slot, both truncated to whole pixels.
   */
  function SlotOf(a: Anchor, size: nat, position: nat, rootW: real, rootH: real): (s: Slot)
    requires size > 0
    ensures s.y + s.height == rootH - a.bottom && s.height == a.header
    ensures var x := a.left + position as real * SlotWidth(a, size, rootW);
      0.0 <= x < TwoTo31 as real ==> s.x as real <= x < s.x as real + 1.0
    ensures var w := SlotWidth(a, size, rootW) + 1.0;
      0.0 <= w < TwoTo31 as real ==> s.width as real <= w < s.width as real + 1.0
  {
    var x := a.left + position as real * SlotWidth(a, size, rootW);
    var w := SlotWidth(a, size, rootW) + 1.0;
    OrZeroFloors(x);
    OrZeroFloors(w);
    Slot(OrZero(Px(x)), rootH - a.bottom - a.header, OrZero(Px(w)), a.header)
  }

  /** On non-negative values in the 32-bit range, `| 0` rounds down to a whole pixel. */
  lemma OrZeroFloors(r: real)
    ensures 0.0 <= r < TwoTo31 as real ==> OrZero(Px(r)) as real <= r < OrZero(Px(r)) as real + 1.0
  {
    if 0.0 <= r < TwoTo31 as real {
      OrZeroIsTrunc(r);
    }
  }

  /** The slot of the i-th stack entry. */
  function SlotAt(anchors: seq<Anchor>, i: nat, rootW: real, rootH: real): (s: Slot)
    requires i < |anchors|
    ensures s.y == rootH - anchors[i].bottom - anchors[i].header && s.height == anchors[i].header
  {
    GroupPositionBound(anchors, i);
    SlotOf(anchors[i], GroupSize(anchors, i), GroupPosition(anchors, i), rootW, rootH)
  }

  /** The slots of the first `n` stack entries, in stack order. */
  function Layout(anchors: seq<Anchor>, n: nat, rootW: real, rootH: real): (slots: seq<Slot>)
    requires n <= |anchors|
    ensures |slots| == n
  {
    if n == 0 then [] else Layout(anchors, n - 1, rootW, rootH) + [SlotAt(anchors, n - 1, rootW, rootH)]
  }

  /** The layout gives every stack entry its own slot. */
  lemma {:induction false} LayoutAt(anchors: seq<Anchor>, n: nat, rootW: real, rootH: real, i: nat)
    requires i < n <= |anchors|
    ensures Layout(anchors, n, rootW, rootH)[i] == SlotAt(anchors, i, rootW, rootH)
  {
    if i < n - 1 {
      LayoutAt(anchors, n - 1, rootW, rootH, i);
    }
  }

  /**
    Minimizing a window (pushing it onto the stack) keeps the slot of every
    docked window of another group: other groups do not affect a slot.
   */
  lemma PushKeepsOtherGroups(anchors: seq<Anchor>, e: Anchor, i: nat, rootW: real, rootH: real)
    requires i < |anchors| && anchors[i].Group() != e.Group()
    ensures SlotAt(anchors + [e], i, rootW, rootH) == SlotAt(anchors, i, rootW, rootH)
  {
    var pushed := anchors + [e];
    var k := anchors[i].Group();
    GroupCountPrefix(pushed, anchors, |anchors|, k);
    GroupCountPrefix(pushed, anchors, i, k);
  }

  /**
    Minimizing a window keeps the position of every docked window of its own
    group; the group's slots only narrow (or keep their width at 250).
   */
  lemma PushNarrowsOwnGroup(anchors: seq<Anchor>, e: Anchor, i: nat, rootW: real)
    requires i < |anchors| && anchors[i].Group() == e.Group()
    ensures GroupPosition(anchors + [e], i) == GroupPosition(anchors, i)
    ensures GroupSize(anchors + [e], i) == GroupSize(anchors, i) + 1
    ensures GroupSize(anchors, i) > 0 && rootW - anchors[i].left - anchors[i].right >= 0.0 ==>
      SlotWidth(anchors[i], GroupSize(anchors + [e], i), rootW) <= SlotWidth(anchors[i], GroupSize(anchors, i), rootW)
  {
    var pushed := anchors + [e];
    var k := anchors[i].Group();
    GroupCountPrefix(pushed, anchors, |anchors|, k);
    GroupCountPrefix(pushed, anchors, i, k);
    var n := GroupSize(anchors, i);
    if n > 0 && rootW - anchors[i].left - anchors[i].right >= 0.0 {
      var free := rootW - anchors[i].left - anchors[i].right;
      assert free / (n + 1) as real <= free / n as real by {
        assert free / (n + 1) as real * (n + 1) as real == free;
        assert free / n as real * n as real == free;
      }
    }
  }

  /**
    Before truncation, a group's slots tile its viewport from the left inset:
    slot p spans `[left + p*w, left + (p+1)*w]`, and the last one ends inside
    the viewport.
   */
  lemma SlotsFitViewport(a: Anchor, size: nat, position: nat, rootW: real)
    requires position < size
    requires rootW - a.left - a.right >= 0.0
    ensures var w := SlotWidth(a, size, rootW);
      0.0 <= w && a.left + (position as real + 1.0) * w <= rootW - a.right
  {
    var w := SlotWidth(a, size, rootW);
    var n := size as real;
    var p := position as real + 1.0;
    assert 0.0 <= w by {
      assert (rootW - a.left - a.right) / n >= 0.0;
    }
    var pw, nw := p * w, n * w;
    assert pw <= nw by {
      assert p <= n;
    }
    assert nw <= rootW - a.left - a.right by {
      assert nw == w * n;
    }
  }

  /**
    Two windows of one group in a 1000-wide root: slot width 250, each shown
    251 wide (a one-pixel overlap), at x 0 and 250.
   */
  lemma TwoWindowDock(a: Anchor)
    requires a == Anchor(0.0, 0.0, 0.0, 0.0, 35.0)
    ensures SlotAt([a, a], 0, 1000.0, 800.0) == Slot(0, 765.0, 251, 35.0)
    ensures SlotAt([a, a], 1, 1000.0, 800.0) == Slot(250, 765.0, 251, 35.0)
  {
    var g := a.Group();
    assert GroupCount([a, a], 1, g) == 1;
    assert GroupCount([a, a], 2, g) == 2;
    OrZeroIsTrunc(251.0);
    OrZeroIsTrunc(250.0);
  }

  /**
    The first loop of the layout: count each group's members, and start each
    group's running position at 0.
   */
  method CountGroups(anchors: seq<Anchor>) returns (index: map<Key, nat>, length: map<Key, nat>)
    ensures index.Keys == KeysOf(anchors, |anchors|) && length.Keys == KeysOf(anchors, |anchors|)
    ensures forall k :: k in length ==> length[k] == GroupCount(anchors, |anchors|, k)
    ensures forall k :: k in index ==> index[k] == 0
  {
    index, length := map[], map[];
    var i := 0;
    while i < |anchors|
      invariant 0 <= i <= |anchors|
      invariant index.Keys == KeysOf(anchors, i) && length.Keys == KeysOf(anchors, i)
      invariant forall k :: k in length ==> length[k] == GroupCount(anchors, i, k) && length[k] > 0
      invariant forall k :: k in index ==> index[k] == 0
    {
      var key := anchors[i].Group();
      if key in length && length[key] != 0 {
        length := length[key := length[key] + 1];
      } else {
        GroupCountPositive(anchors, i, key);
        index := index[key := 0];
        length := length[key := 1];
      }
      i := i + 1;
    }
  }

  /** The first index of `x` in `s`, or -1 (`Array.prototype.indexOf`). */
  function IndexOf<T(==)>(s: seq<T>, x: T): (r: int)
    ensures -1 <= r < |s|
    ensures r == -1 <==> x !in s
    ensures r >= 0 ==> s[r] == x && x !in s[..r]
  {
    if s == [] then -1
    else if s[0] == x then 0
    else
      var r := IndexOf(s[1..], x);
      assert s[1..][..if r >= 0 then r else 0] == s[1..if r >= 0 then r + 1 else 1];
      if r == -1 then -1 else r + 1
  }

  /** `s.splice(i, 1)` for an index or -1; a start of -1 counts from the end. */
  function SpliceOne<T>(s: seq<T>, i: int): seq<T>
    requires -1 <= i < |s|
  {
    if i >= 0 then s[..i] + s[i + 1..]
    else if s == [] then s
    else s[..|s| - 1]
  }

  /** Removing a window from the minimized stack: `splice(indexOf(self), 1)`. */
  function RemoveFromStack<T(==)>(s: seq<T>, x: T): seq<T> {
    SpliceOne(s, IndexOf(s, x))
  }

  predicate Distinct<T(==)>(s: seq<T>) {
    forall i, j :: 0 <= i < j < |s| ==> s[i] != s[j]
  }

  /** Pushing a non-member keeps the members distinct. */
  lemma PushKeepsDistinct<T>(s: seq<T>, x: T)
    requires Distinct(s) && x !in s
    ensures Distinct(s + [x])
  {
    var p := s + [x];
    forall i, j | 0 <= i < j < |p| ensures p[i] != p[j] {
      if j == |s| { assert p[i] == s[i]; }
    }
  }

  /** Removing a member deletes exactly that entry, at the member's position. */
  lemma RemoveIsSplice<T>(s: seq<T>, x: T)
    requires x in s
    ensures var r := RemoveFromStack(s, x);
      |r| == |s| - 1 && exists k :: 0 <= k < |s| && s[k] == x && r == s[..k] + s[k + 1..]
  {
    var k := IndexOf(s, x);
    assert s[k] == x;
  }

  /** Removing a member of a stack without repeats keeps the others, in order, and no repeats. */
  lemma RemoveKeepsOthers<T>(s: seq<T>, x: T)
    requires Distinct(s) && x in s
    ensures var r := RemoveFromStack(s, x);
      && Distinct(r)
      && (forall y :: y in r <==> y in s && y != x)
  {
    var k := IndexOf(s, x);
    var r := RemoveFromStack(s, x);
    assert r == s[..k] + s[k + 1..];
    forall i, j | 0 <= i < j < |r| ensures r[i] != r[j] {
      var i' := if i < k then i else i + 1;
      var j' := if j < k then j else j + 1;
      assert r[i] == s[i'] && r[j] == s[j'];
    }
    forall y ensures y in r <==> y in s && y != x {
      if y in r {
        var i :| 0 <= i < |r| && r[i] == y;
        assert s[if i < k then i else i + 1] == y;
      }
      if y in s && y != x {
        var i :| 0 <= i < |s| && s[i] == y;
        assert i != k;
        assert r[if i < k then i else i - 1] == y;
      }
    }
  }

  /** Removing the window just pushed gives the stack back as it was. */
  lemma RemoveAfterPush<T>(s: seq<T>, x: T)
    requires x !in s
    ensures RemoveFromStack(s + [x], x) == s
  {
    var k := IndexOf(s + [x], x);
    assert k == |s| by {
      assert (s + [x])[|s|] == x;
    }
    assert (s + [x])[..k] == s;
  }

  /**
    Unguarded, the removal would drop the last minimized window instead: for an
    absent window `indexOf` is -1 and `splice(-1, 1)` removes the final entry.
    Every caller guards the removal with the window's `min` flag.
   */
  lemma RemoveAbsentDropsLast<T>(s: seq<T>, x: T)
    requires x !in s && s != []
    ensures RemoveFromStack(s, x) == s[..|s| - 1]
  {
  }
}
