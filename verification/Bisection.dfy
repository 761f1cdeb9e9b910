/** The solver of the contest ratings (judge/ratings.py): bisection and one interpolation, for any function. */
module Bisection {
  import opened Common

  /** Where the line through two points reaches y. */
  function Interpolated(y: real, left: real, right: real, yLeft: real, yRight: real): real
    requires yLeft < yRight
  {
    Mixed(left, right, (y - yLeft) / (yRight - yLeft))
  }

  /** A part of the way from one point to another. */
  function Mixed(left: real, right: real, ratio: real): real {
    left * (1.0 - ratio) + right * ratio
  }

  function Part(whole: real, ratio: real): real {
    whole * ratio
  }

  function Root(f: real -> real, y: real, left: real, right: real): real
    decreases if right - left > 2.0 then (right - left).Floor else 0
  {
    if right - left > 2.0 then
      var x := (left + right) / 2.0;
      assert (right - left) / 2.0 < right - left - 1.0;
      if f(x) > y then Root(f, y, left, x)
      else if f(x) < y then Root(f, y, x, right)
      else x
    else if y <= f(left) then left
    else if y >= f(right) then right
    else Interpolated(y, left, right, f(left), f(right))
  }

  /** solve(): the values at the ends are worked out only when they are needed; nothing is ever divided by zero. */
  method Solve(f: real -> real, y: real, left: real, right: real) returns (x: real)
    ensures x == Root(f, y, left, right)
  {
    var l, r := left, right;
    var yl: Option<real>, yr: Option<real> := None, None;
    while r - l > 2.0
      invariant Root(f, y, l, r) == Root(f, y, left, right)
      invariant yl.Some? ==> yl.value == f(l)
      invariant yr.Some? ==> yr.value == f(r)
      decreases r - l
    {
      x := (l + r) / 2.0;
      var yx := f(x);
      if yx > y {
        r, yr := x, Some(yx);
      } else if yx < y {
        l, yl := x, Some(yx);
      } else {
        return;
      }
    }
    if yl.None? { yl := Some(f(l)); }
    if y <= yl.value { return l; }
    if yr.None? { yr := Some(f(r)); }
    if y >= yr.value { return r; }
    return Interpolated(y, l, r, yl.value, yr.value);
  }

  // -------------------------------------------------------------------------------------- what it returns

  lemma Product(x: real, y: real)
    requires x > 0.0 && y > 0.0
    ensures x * y > 0.0
  {}

  lemma Scale(t: real, t': real, c: real)
    requires t <= t' && c >= 0.0
    ensures c * t <= c * t'
  {}

  lemma PartBetween(whole: real, ratio: real)
    requires whole >= 0.0 && 0.0 <= ratio <= 1.0
    ensures 0.0 <= Part(whole, ratio) <= whole
  {}

  lemma MixedIs(left: real, right: real, ratio: real)
    ensures Mixed(left, right, ratio) == left + Part(right - left, ratio)
  {}

  lemma RatioBetween(part: real, whole: real)
    requires 0.0 <= part <= whole && 0.0 < whole
    ensures 0.0 <= part / whole <= 1.0
  {}

  lemma Weighted(left: real, right: real, ratio: real)
    requires left <= right && 0.0 <= ratio <= 1.0
    ensures left <= Mixed(left, right, ratio) <= right
  {
    hide Mixed, Part;
    MixedIs(left, right, ratio);
    PartBetween(right - left, ratio);
  }

  lemma InterpolatedInside(y: real, left: real, right: real, yLeft: real, yRight: real)
    requires left <= right && yLeft < y < yRight
    ensures left <= Interpolated(y, left, right, yLeft, yRight) <= right
  {
    var ratio := (y - yLeft) / (yRight - yLeft);
    RatioBetween(y - yLeft, yRight - yLeft);
    Weighted(left, right, ratio);
  }

  /** The result is inside the bounds, whatever the function. */
  lemma {:induction false} RootInside(f: real -> real, y: real, left: real, right: real)
    requires left <= right
    ensures left <= Root(f, y, left, right) <= right
    decreases if right - left > 2.0 then (right - left).Floor else 0
  {
    if right - left > 2.0 {
      var x := (left + right) / 2.0;
      assert (right - left) / 2.0 < right - left - 1.0;
      if f(x) > y { RootInside(f, y, left, x); }
      else if f(x) < y { RootInside(f, y, x, right); }
    } else if y > f(left) && y < f(right) {
      InterpolatedInside(y, left, right, f(left), f(right));
    }
  }

  lemma OnLine(y: real, l: real, r: real)
    requires l < r
    ensures Mixed(l, r, (y - l) / (r - l)) == y
  {
    var t := (y - l) / (r - l);
    assert t * (r - l) == y - l;
    MixedIs(l, r, t);
  }

  lemma MixedBelow(l: real, r: real, l': real, r': real, t: real)
    requires l' <= l && r' <= r && 0.0 <= t <= 1.0
    ensures Mixed(l', r', t) <= Mixed(l, r, t)
  {
    hide Mixed, Part;
    MixedParts(l, r, t);
    MixedParts(l', r', t);
    PartUp(l', l, 1.0 - t);
    PartUp(r', r, t);
  }

  lemma MixedParts(l: real, r: real, t: real)
    ensures Mixed(l, r, t) == Part(l, 1.0 - t) + Part(r, t)
  {}

  lemma PartUp(x: real, x': real, ratio: real)
    requires x <= x' && ratio >= 0.0
    ensures Part(x, ratio) <= Part(x', ratio)
  {}

  lemma PartOrder(whole: real, t: real, t': real)
    requires whole >= 0.0
    ensures t <= t' ==> Part(whole, t) <= Part(whole, t')
    ensures whole > 0.0 && Part(whole, t) <= Part(whole, t') ==> t <= t'
  {
    if t <= t' { Scale(t, t', whole); } else if whole > 0.0 { StrictPart(whole, t - t', t'); }
  }

  lemma StrictPart(whole: real, d: real, t: real)
    requires whole > 0.0 && d > 0.0
    ensures whole * (t + d) > whole * t
  {
    Product(whole, d);
    assert whole * (t + d) == whole * t + whole * d;
  }

  /** With the other line below and its target above, a line gets there no earlier. */
  lemma LinesCross(y: real, y': real, left: real, right: real, l: real, r: real, l': real, r': real)
    requires left <= right && y <= y' && l' <= l && r' <= r && l < y && y' < r'
    ensures l < r && l' < r' && Interpolated(y, left, right, l, r) <= Interpolated(y', left, right, l', r')
  {
    hide Mixed, Part;
    var t, t' := (y - l) / (r - l), (y' - l') / (r' - l');
    RatioBetween(y - l, r - l);
    OnLine(y, l, r);
    OnLine(y', l', r');
    MixedBelow(l, r, l', r', t);
    MixedIs(l', r', t);
    MixedIs(l', r', t');
    PartOrder(r' - l', t, t');
    MixedIs(left, right, t);
    MixedIs(left, right, t');
    PartOrder(right - left, t, t');
  }

  /**
   A higher target, or a function nowhere above, never gives a lower result.  It holds for any two functions, however
   irregular: every comparison made on the way agrees with it.
   */
  lemma {:induction false} RootMonotone(f: real -> real, y: real, f': real -> real, y': real, left: real, right: real)
    requires left <= right && y <= y' && forall x :: f'(x) <= f(x)
    ensures Root(f, y, left, right) <= Root(f', y', left, right)
    decreases if right - left > 2.0 then (right - left).Floor else 0
  {
    RootInside(f, y, left, right);
    RootInside(f', y', left, right);
    if right - left > 2.0 {
      var x := (left + right) / 2.0;
      assert (right - left) / 2.0 < right - left - 1.0;
      assert f'(x) <= f(x);
      if f'(x) > y' {
        RootMonotone(f, y, f', y', left, x);
      } else if f(x) < y {
        RootMonotone(f, y, f', y', x, right);
      } else {
        RootInside(f, y, left, x);
        RootInside(f', y', x, right);
      }
    } else if f(left) < y && y' < f'(right) {
      LinesCross(y, y', left, right, f(left), f(right), f'(left), f'(right));
    }
  }

  // -------------------------------------------------------------------------------- how near the exact root

  ghost predicate Increasing(f: real -> real) {
    forall x, x' :: x < x' ==> f(x) < f(x')
  }

  function Clamp(x: real, left: real, right: real): real {
    if x < left then left else if x > right then right else x
  }

  predicate Near(x: real, x': real) {
    -2.0 <= x - x' <= 2.0
  }

  /** For an increasing function the result is within 2 of the exact root, and exactly at a bound the root is beyond. */
  lemma {:induction false} RootNear(f: real -> real, y: real, root: real, left: real, right: real)
    requires left <= right && Increasing(f) && f(root) == y
    ensures Near(Root(f, y, left, right), Clamp(root, left, right))
    ensures root <= left ==> Root(f, y, left, right) == left
    ensures root >= right ==> Root(f, y, left, right) == right
    decreases if right - left > 2.0 then (right - left).Floor else 0
  {
    RootInside(f, y, left, right);
    assert forall x :: x < root ==> f(x) < y;
    assert forall x :: x > root ==> f(x) > y;
    if right - left > 2.0 {
      var x := (left + right) / 2.0;
      assert (right - left) / 2.0 < right - left - 1.0;
      if f(x) > y { RootNear(f, y, root, left, x); }
      else if f(x) < y { RootNear(f, y, root, x, right); }
    }
  }

  lemma QuotientIs(n: real, d: real, q: real)
    requires d > 0.0 && q * d == n
    ensures n / d == q
  {}

  lemma RatioCancels(c: real, x: real, y: real)
    requires c > 0.0 && y > 0.0
    ensures c * y > 0.0 && (c * x) / (c * y) == x / y
  {
    Product(c, y);
    var q := x / y;
    assert q * y == x;
    assert q * (c * y) == c * (q * y);
    QuotientIs(c * x, c * y, q);
  }

  lemma LineRatio(c: real, d: real, x: real, y: real)
    ensures (c * y + d) - (c * x + d) == c * (y - x)
  {}

  /** On a line nothing is lost: the interpolation gives the very root, or the bound before it. */
  lemma {:induction false} RootOfLine(f: real -> real, c: real, d: real, root: real, left: real, right: real)
    requires c > 0.0 && left <= right && forall x :: f(x) == c * x + d
    ensures Root(f, f(root), left, right) == Clamp(root, left, right)
    decreases if right - left > 2.0 then (right - left).Floor else 0
  {
    LineOrder(f, c, d, root);
    if right - left > 2.0 {
      var x := (left + right) / 2.0;
      assert (right - left) / 2.0 < right - left - 1.0;
      if f(x) > f(root) { RootOfLine(f, c, d, root, left, x); }
      else if f(x) < f(root) { RootOfLine(f, c, d, root, x, right); }
    } else if left < root < right {
      Exactly(c, d, root, left, right);
    }
  }

  lemma LineOrder(f: real -> real, c: real, d: real, root: real)
    requires c > 0.0 && forall x :: f(x) == c * x + d
    ensures forall x :: (x < root <==> f(x) < f(root)) && (x > root <==> f(x) > f(root))
  {
    forall x ensures (x < root <==> f(x) < f(root)) && (x > root <==> f(x) > f(root)) {
      LineRatio(c, d, x, root);
      if x < root { Product(c, root - x); }
      if x > root { Product(c, x - root); LineRatio(c, d, root, x); }
    }
  }

  lemma Exactly(c: real, d: real, root: real, left: real, right: real)
    requires c > 0.0 && left < root < right
    ensures c * left + d < c * right + d
    ensures Interpolated(c * root + d, left, right, c * left + d, c * right + d) == root
  {
    hide Mixed;
    LineRatio(c, d, left, root);
    LineRatio(c, d, left, right);
    Product(c, right - left);
    var y, l, r := c * root + d, c * left + d, c * right + d;
    RatioCancels(c, root - left, right - left);
    SameRatio(y, l, r, c * (root - left), c * (right - left));
    OnLine(root, left, right);
    InterpolatedIs(y, left, right, l, r, (root - left) / (right - left));
  }

  lemma SameRatio(y: real, l: real, r: real, part: real, whole: real)
    requires y - l == part && r - l == whole && whole > 0.0
    ensures (y - l) / (r - l) == part / whole
  {}

  lemma InterpolatedIs(y: real, left: real, right: real, l: real, r: real, ratio: real)
    requires l < r && (y - l) / (r - l) == ratio
    ensures Interpolated(y, left, right, l, r) == Mixed(left, right, ratio)
  {}
}
