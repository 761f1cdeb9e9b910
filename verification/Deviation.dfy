/** How the deviation of a duel player grows while they do not play (judge/arena/rating.py). */
module Deviation {
  const SCALE: real := 173.7178
  const START_DEVIATION: real := 350.0

  /** What is used of a square root. */
  ghost predicate IsRoot(root: real -> real) {
    forall x :: x >= 0.0 ==> root(x) >= 0.0 && root(x) * root(x) == x
  }

  function Least(x: real, y: real): real {
    if y < x then y else x
  }

  /** rate() with no results: one week without a game. */
  function Idle(root: real -> real, deviation: real, volatility: real): real {
    var phi := deviation / SCALE;
    Least(START_DEVIATION, root(phi * phi + volatility * volatility) * SCALE)
  }

  /** grown_deviation(): some whole weeks at once. */
  function Grown(root: real -> real, deviation: real, volatility: real, weeks: int): real {
    if weeks <= 0 then deviation
    else
      var phi := deviation / SCALE;
      Least(START_DEVIATION, root(phi * phi + weeks as real * volatility * volatility) * SCALE)
  }

  function IdleWeeks(root: real -> real, deviation: real, volatility: real, weeks: nat): real {
    if weeks == 0 then deviation else Idle(root, IdleWeeks(root, deviation, volatility, weeks - 1), volatility)
  }

  // --------------------------------------------------------------------------------------- in squared units

  function Square(deviation: real): real {
    (deviation / SCALE) * (deviation / SCALE)
  }

  /** The deviation of a square, never above the one of a newcomer. */
  function Capped(root: real -> real, square: real): real {
    Least(START_DEVIATION, root(square) * SCALE)
  }

  lemma SquaresOrder(x: real, y: real)
    requires x >= 0.0 && y >= 0.0
    ensures x <= y <==> x * x <= y * y
  {
    if x <= y {
      Times(x, x, y);
      Times(y, x, y);
    } else {
      StrictSquare(y, x - y, x);
    }
  }

  lemma StrictSquare(y: real, d: real, x: real)
    requires y >= 0.0 && d > 0.0 && x == y + d
    ensures x * x > y * y
  {
    assert d * d > 0.0 && y * d >= 0.0;
    assert (y + d) * (y + d) == y * y + 2.0 * (y * d) + d * d;
  }

  lemma Times(c: real, x: real, y: real)
    requires c >= 0.0 && x <= y
    ensures c * x <= c * y
  {}

  lemma SquareNotNegative(x: real)
    ensures x * x >= 0.0
  {}

  /** The cap commutes with the square. */
  lemma CappedSquare(root: real -> real, square: real)
    requires IsRoot(root) && square >= 0.0
    ensures Capped(root, square) >= 0.0
    ensures Square(Capped(root, square)) == Least(Square(START_DEVIATION), square)
  {
    var r, cap := root(square), START_DEVIATION / SCALE;
    assert r >= 0.0 && r * r == square;
    assert r * SCALE / SCALE == r;
    SquaresOrder(cap, r);
    assert START_DEVIATION <= r * SCALE <==> cap <= r;
  }

  lemma CappedAgain(root: real -> real, square: real, more: real)
    requires IsRoot(root) && square >= 0.0 && more >= 0.0
    ensures Capped(root, Square(Capped(root, square)) + more) == Capped(root, square + more)
  {
    CappedSquare(root, square);
    var cap := Square(START_DEVIATION);
    if square > cap {
      AboveCap(root, cap + more);
      AboveCap(root, square + more);
    }
  }

  lemma AboveCap(root: real -> real, square: real)
    requires IsRoot(root) && square >= Square(START_DEVIATION)
    ensures Capped(root, square) == START_DEVIATION
  {
    var cap := START_DEVIATION / SCALE;
    SquareNotNegative(cap);
    assert root(square) >= 0.0;
    SquaresOrder(cap, root(square));
    assert root(square) * SCALE >= START_DEVIATION;
  }

  lemma WeeksAdd(m: int, n: int, v: real)
    ensures m as real * v * v + n as real * v * v == (m + n) as real * v * v
    ensures m >= 0 ==> m as real * v * v >= 0.0
  {
    SquareNotNegative(v);
    var mr, nr, vv := m as real, n as real, v * v;
    assert (m + n) as real == mr + nr;
    assert mr * v * v == mr * vv && nr * v * v == nr * vv && (mr + nr) * v * v == (mr + nr) * vv;
    assert mr * vv + nr * vv == (mr + nr) * vv;
  }

  lemma GrownIs(root: real -> real, deviation: real, volatility: real, weeks: int, square: real)
    requires weeks > 0 && square == Square(deviation) + weeks as real * volatility * volatility
    ensures Grown(root, deviation, volatility, weeks) == Capped(root, square)
  {}

  /** Growing m weeks and then n is growing m + n weeks, the cap included. */
  lemma GrowthAdds(root: real -> real, deviation: real, volatility: real, m: nat, n: nat)
    requires IsRoot(root)
    ensures Grown(root, Grown(root, deviation, volatility, m), volatility, n)
            == Grown(root, deviation, volatility, m + n)
  {
    hide Grown, Capped, Square;
    if m == 0 || n == 0 {
      NoGrowth(root, deviation, volatility);
      NoGrowth(root, Grown(root, deviation, volatility, m), volatility);
    } else {
      var square := Square(deviation);
      var first, more := m as real * volatility * volatility, n as real * volatility * volatility;
      WeeksAdd(m, n, volatility);
      WeeksAdd(n, m, volatility);
      SquareIsNotNegative(deviation);
      GrownIs(root, deviation, volatility, m, square + first);
      CappedAgain(root, square + first, more);
      GrownIs(root, Grown(root, deviation, volatility, m), volatility, n, Square(Capped(root, square + first)) + more);
      GrownIs(root, deviation, volatility, m + n, square + first + more);
    }
  }

  lemma NoGrowth(root: real -> real, deviation: real, volatility: real)
    ensures Grown(root, deviation, volatility, 0) == deviation
  {}

  lemma SquareIsNotNegative(deviation: real)
    ensures Square(deviation) >= 0.0
  {
    SquareNotNegative(deviation / SCALE);
  }

  /** Growing some weeks at once is a rating period without results for each of them. */
  lemma {:induction false} GrowthIsIdleWeeks(root: real -> real, deviation: real, volatility: real, weeks: nat)
    requires IsRoot(root)
    ensures IdleWeeks(root, deviation, volatility, weeks) == Grown(root, deviation, volatility, weeks)
  {
    if weeks > 0 {
      GrowthIsIdleWeeks(root, deviation, volatility, weeks - 1);
      GrowthAdds(root, deviation, volatility, weeks - 1, 1);
      OneWeek(root, Grown(root, deviation, volatility, weeks - 1), volatility);
    }
    hide Grown, Idle;
  }

  lemma OneWeek(root: real -> real, deviation: real, volatility: real)
    ensures Idle(root, deviation, volatility) == Grown(root, deviation, volatility, 1)
  {
    GrownIs(root, deviation, volatility, 1, Square(deviation) + volatility * volatility);
  }
}
