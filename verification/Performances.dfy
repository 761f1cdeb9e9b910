/** Performances and means of a rated contest (judge/ratings.py). */
module Performances {
  import opened Common
  import opened Bisection
  import opened Variance

  type Positive = x: real | x > 0.0 witness 1.0

  type Terms = terms: seq<Term> | forall i :: 0 <= i < |terms| ==> terms[i].sd > 0.0

  function Contribution(term: Term, tanh: real -> real, x: real): real
    requires term.sd > 0.0
  {
    term.wt / term.sd * tanh((x - term.mu) / (2.0 * term.sd))
  }

  /** eval_tanhs() */
  function Eval(terms: Terms, tanh: real -> real, x: real): real {
    if terms == [] then 0.0
    else Eval(terms[..|terms| - 1], tanh, x) + Contribution(terms[|terms| - 1], tanh, x)
  }

  /** Some double deviations from its mean, a term is its weight for each deviation, times the tanh of that many. */
  lemma TermAt(term: Term, tanh: real -> real, z: real)
    requires term.sd > 0.0
    ensures Contribution(term, tanh, term.mu + 2.0 * term.sd * z) == term.wt / term.sd * tanh(z)
  {
    var x := term.mu + 2.0 * term.sd * z;
    DividedBack(x - term.mu, 2.0 * term.sd, z);
  }

  lemma DividedBack(n: real, c: real, z: real)
    requires c > 0.0 && n == c * z
    ensures n / c == z
  {}

  method EvalTanhs(terms: Terms, tanh: real -> real, x: real) returns (sum: real)
    ensures sum == Eval(terms, tanh, x)
  {
    sum := 0.0;
    for i := 0 to |terms|
      invariant sum == Eval(terms[..i], tanh, x)
    {
      assert terms[..i + 1][..i] == terms[..i];
      sum := sum + terms[i].wt / terms[i].sd * tanh((x - terms[i].mu) / (2.0 * terms[i].sd));
    }
    assert terms[..|terms|] == terms;
  }

  /** What solve() looks for a value of: a linear part and the terms. */
  function Line(terms: Terms, tanh: real -> real, factor: real): real -> real {
    x => factor * x + Eval(terms, tanh, x)
  }

  // ----------------------------------------------------------------------------------------------- targets

  /** What everybody else adds to the target of whoever has rank r: a tie adds nothing. */
  function Target(ranking: seq<real>, delta: seq<Positive>, r: real): real
    requires |ranking| == |delta|
  {
    if ranking == [] then 0.0
    else
      var n := |ranking| - 1;
      var y := Target(ranking[..n], delta[..n], r);
      if ranking[n] > r then y + 1.0 / delta[n] else if ranking[n] < r then y - 1.0 / delta[n] else y
  }

  method TargetOf(ranking: seq<real>, delta: seq<Positive>, i: nat) returns (y: real)
    requires |ranking| == |delta| && i < |ranking|
    ensures y == Target(ranking, delta, ranking[i])
  {
    var r := ranking[i];
    y := 0.0;
    for k := 0 to |ranking|
      invariant y == Target(ranking[..k], delta[..k], r)
    {
      assert ranking[..k + 1][..k] == ranking[..k] && delta[..k + 1][..k] == delta[..k];
      if ranking[k] > r {
        y := y + 1.0 / delta[k];
      } else if ranking[k] < r {
        y := y - 1.0 / delta[k];
      }
    }
    assert ranking[..|ranking|] == ranking && delta[..|ranking|] == delta;
  }

  /** Among equals there is nothing to win. */
  lemma {:induction false} TargetOfTies(ranking: seq<real>, delta: seq<Positive>, r: real)
    requires |ranking| == |delta| && forall i :: 0 <= i < |ranking| ==> ranking[i] == r
    ensures Target(ranking, delta, r) == 0.0
  {
    if ranking != [] {
      var n := |ranking| - 1;
      TargetOfTies(ranking[..n], delta[..n], r);
    }
  }

  /** A rival ranked behind is a win, one ahead a loss of as much, an equal neither. */
  function Gain(r: real, rival: real, weight: real): real {
    if r < rival then weight else if r > rival then -weight else 0.0
  }

  /** Whoever one rival is against the player moves the target by that rival's own weight, a win as much as a loss. */
  lemma {:induction false} TargetStep(ranking: seq<real>, delta: seq<Positive>, r: real, i: nat, rank: real)
    requires |ranking| == |delta| && i < |ranking|
    ensures Target(ranking[i := rank], delta, r) - Target(ranking, delta, r)
            == Gain(r, rank, 1.0 / delta[i]) - Gain(r, ranking[i], 1.0 / delta[i])
  {
    var n := |ranking| - 1;
    if i < n {
      TargetStep(ranking[..n], delta[..n], r, i, rank);
      assert ranking[i := rank][..n] == ranking[..n][i := rank];
    } else {
      assert ranking[i := rank][..n] == ranking[..n];
    }
  }

  /** A worse rank never has a higher target. */
  lemma {:induction false} TargetFalls(ranking: seq<real>, delta: seq<Positive>, r: real, r': real)
    requires |ranking| == |delta| && r <= r'
    ensures Target(ranking, delta, r') <= Target(ranking, delta, r)
  {
    if ranking != [] {
      var n := |ranking| - 1;
      TargetFalls(ranking[..n], delta[..n], r, r');
      assert 1.0 / delta[n] > 0.0;
    }
  }

  // ---------------------------------------------------------------------------------- divide and conquer

  /** The performances strictly between two known ones, each between its neighbours already known. */
  function Filled(f: real -> real, y: seq<real>, p: seq<real>, i: nat, j: nat): (filled: seq<real>)
    requires |p| == |y| && j < |p|
    ensures |filled| == |p|
    decreases j - i
  {
    if j - i > 1 then
      var k := (i + j) / 2;
      Filled(f, y, Filled(f, y, p[k := Root(f, y[k], p[j], p[i])], i, k), k, j)
    else p
  }

  /** divconq() */
  method DivideAndConquer(newP: array<real>, f: real -> real, y: seq<real>, i: nat, j: nat)
    returns (ghost writes: multiset<int>)
    requires newP.Length == |y| && j < |y|
    modifies newP
    ensures newP[..] == Filled(f, y, old(newP[..]), i, j)
    ensures forall x :: writes[x] == if i < x < j then 1 else 0
    decreases j - i
  {
    writes := multiset{};
    if j - i > 1 {
      var k := (i + j) / 2;
      var x := Solve(f, y[k], newP[j], newP[i]);
      newP[k] := x;
      assert newP[..] == old(newP[..])[k := x];
      ghost var left := DivideAndConquer(newP, f, y, i, k);
      ghost var right := DivideAndConquer(newP, f, y, k, j);
      writes := multiset{k} + left + right;
    }
  }

  lemma {:induction false} FilledElsewhere(f: real -> real, y: seq<real>, p: seq<real>, i: nat, j: nat, x: nat)
    requires |p| == |y| && j < |p| && x < |p| && (x <= i || x >= j)
    ensures Filled(f, y, p, i, j)[x] == p[x]
    decreases j - i
  {
    if j - i > 1 {
      var k := (i + j) / 2;
      var p' := p[k := Root(f, y[k], p[j], p[i])];
      FilledElsewhere(f, y, p', i, k, x);
      FilledElsewhere(f, y, Filled(f, y, p', i, k), k, j, x);
    }
  }

  ghost predicate Falls(p: seq<real>, i: nat, j: nat)
    requires j < |p|
  {
    forall a, b :: i <= a <= b <= j ==> p[b] <= p[a]
  }

  /** Whatever the function, the bounds are never crossed: what is filled in falls from one end to the other. */
  lemma {:induction false} FilledFalls(f: real -> real, y: seq<real>, p: seq<real>, i: nat, j: nat)
    requires |p| == |y| && i <= j < |p| && p[j] <= p[i]
    ensures Falls(Filled(f, y, p, i, j), i, j)
    decreases j - i
  {
    if j - i > 1 {
      var k := (i + j) / 2;
      RootInside(f, y[k], p[j], p[i]);
      var p' := p[k := Root(f, y[k], p[j], p[i])];
      var half := Filled(f, y, p', i, k);
      FilledFalls(f, y, p', i, k);
      FilledElsewhere(f, y, p', i, k, i);
      FilledElsewhere(f, y, p', i, k, k);
      FilledElsewhere(f, y, p', i, k, j);
      FilledFalls(f, y, half, k, j);
      var full := Filled(f, y, half, k, j);
      forall a, b | i <= a <= b <= j ensures full[b] <= full[a] {
        if a <= k {
          FilledElsewhere(f, y, half, k, j, a);
          FilledElsewhere(f, y, half, k, j, k);
        }
        if b <= k { FilledElsewhere(f, y, half, k, j, b); }
        assert a <= k ==> half[k] <= half[a];
        assert b <= k ==> half[b] <= half[a];
        assert b >= k ==> full[b] <= full[k];
      }
    }
  }

  /** The exact performances: where the function takes the value of each target. */
  ghost predicate Exact(f: real -> real, y: seq<real>, roots: seq<real>) {
    |roots| == |y| && Increasing(f) && forall i :: 0 <= i < |y| ==> f(roots[i]) == y[i]
  }

  lemma RootsFall(f: real -> real, y: seq<real>, roots: seq<real>)
    requires Exact(f, y, roots) && |y| > 0 && Falls(y, 0, |y| - 1)
    ensures Falls(roots, 0, |y| - 1)
  {
    forall a, b | 0 <= a <= b <= |y| - 1 ensures roots[b] <= roots[a] {
      assert y[b] <= y[a];
      RootFalls(f, roots[a], roots[b]);
    }
  }

  lemma RootFalls(f: real -> real, x: real, y: real)
    requires Increasing(f) && f(y) <= f(x)
    ensures y <= x
  {
    assert x < y ==> f(x) < f(y);
  }

  ghost predicate NearRoot(p: seq<real>, roots: seq<real>, low: real, high: real, i: nat)
    requires |p| == |roots| && i < |p|
  {
    low <= p[i] <= high && Near(p[i], Clamp(roots[i], low, high))
  }

  /** Searching between two near neighbours loses nothing: beyond a bound, the bound itself is as near. */
  lemma BetweenNear(f: real -> real, y: real, root: real, left: real, right: real, rootLeft: real, rootRight: real,
                    low: real, high: real)
    requires Increasing(f) && f(root) == y && rootLeft <= root <= rootRight
    requires low <= left <= right <= high
    requires Near(left, Clamp(rootLeft, low, high)) && Near(right, Clamp(rootRight, low, high))
    ensures left <= Root(f, y, left, right) <= right
    ensures Near(Root(f, y, left, right), Clamp(root, low, high))
  {
    hide Root;
    RootInside(f, y, left, right);
    RootNear(f, y, root, left, right);
  }

  lemma MiddleNear(f: real -> real, y: seq<real>, p: seq<real>, roots: seq<real>, i: nat, k: nat, j: nat,
                   low: real, high: real)
    requires Exact(f, y, roots) && |p| == |y| && i < k < j < |p| && Falls(roots, 0, |y| - 1) && p[j] <= p[i]
    requires NearRoot(p, roots, low, high, i) && NearRoot(p, roots, low, high, j)
    ensures var p' := p[k := Root(f, y[k], p[j], p[i])];
            p'[j] <= p'[k] <= p'[i] && NearRoot(p', roots, low, high, i) &&
            NearRoot(p', roots, low, high, j) && NearRoot(p', roots, low, high, k)
  {
    hide Root, Near, Clamp;
    BetweenNear(f, y[k], roots[k], p[j], p[i], roots[j], roots[i], low, high);
  }

  lemma NearAlike(p: seq<real>, p': seq<real>, roots: seq<real>, low: real, high: real, i: nat)
    requires |p| == |p'| == |roots| && i < |p| && p[i] == p'[i]
    ensures NearRoot(p, roots, low, high, i) == NearRoot(p', roots, low, high, i)
  {}

  /** However deep the recursion, every performance is as near its exact value as a search of the whole range. */
  lemma {:induction false} FilledNear(f: real -> real, y: seq<real>, p: seq<real>, roots: seq<real>, i: nat, j: nat,
                                      low: real, high: real, x: nat)
    requires Exact(f, y, roots) && |p| == |y| && i <= x <= j < |p| && Falls(roots, 0, |y| - 1) && p[j] <= p[i]
    requires NearRoot(p, roots, low, high, i) && NearRoot(p, roots, low, high, j)
    ensures NearRoot(Filled(f, y, p, i, j), roots, low, high, x)
    decreases j - i
  {
    hide NearRoot, Root;
    if j - i > 1 {
      var k := (i + j) / 2;
      MiddleNear(f, y, p, roots, i, k, j, low, high);
      var p' := p[k := Root(f, y[k], p[j], p[i])];
      var half := Filled(f, y, p', i, k);
      FilledElsewhere(f, y, p', i, k, k);
      FilledElsewhere(f, y, p', i, k, j);
      NearAlike(p', half, roots, low, high, k);
      NearAlike(p', half, roots, low, high, j);
      if x <= k {
        FilledNear(f, y, p', roots, i, k, low, high, x);
        FilledElsewhere(f, y, half, k, j, x);
        NearAlike(half, Filled(f, y, half, k, j), roots, low, high, x);
      } else {
        FilledNear(f, y, half, roots, k, j, low, high, x);
      }
    }
  }

  // ---------------------------------------------------------------------------------------- performances

  /** The best and the worst are searched in the whole range, the others between them. */
  function PerformancesOf(f: real -> real, y: seq<real>, low: real, high: real): (p: seq<real>)
    requires |y| >= 2
    ensures |p| == |y|
  {
    Filled(f, y, Ends(f, y, low, high), 0, |y| - 1)
  }

  function Ends(f: real -> real, y: seq<real>, low: real, high: real): (p: seq<real>)
    requires |y| >= 2
    ensures |p| == |y|
  {
    seq(|y|, _ => 0.0)[0 := Root(f, y[0], low, high)][|y| - 1 := Root(f, y[|y| - 1], low, high)]
  }

  ghost predicate AreTargets(ranking: seq<real>, delta: seq<Positive>, y: seq<real>)
    requires |ranking| == |delta|
  {
    |y| == |ranking| && forall i :: 0 <= i < |y| ==> y[i] == Target(ranking, delta, ranking[i])
  }

  method Targets(ranking: seq<real>, delta: seq<Positive>) returns (y: seq<real>)
    requires |ranking| == |delta|
    ensures AreTargets(ranking, delta, y)
  {
    y := [];
    for i := 0 to |ranking|
      invariant |y| == i && forall k :: 0 <= k < i ==> y[k] == Target(ranking, delta, ranking[k])
    {
      var target := TargetOf(ranking, delta, i);
      y := y + [target];
    }
  }

  method Perform(ranking: seq<real>, delta: seq<Positive>, f: real -> real, low: real, high: real)
    returns (newP: array<real>, ghost y: seq<real>, ghost writes: multiset<int>)
    requires |ranking| == |delta| >= 2
    ensures fresh(newP) && AreTargets(ranking, delta, y)
    ensures newP[..] == PerformancesOf(f, y, low, high)
    ensures forall i :: writes[i] == if 0 <= i < |ranking| then 1 else 0
  {
    hide Filled, Target, Root;
    var n := |ranking|;
    newP := new real[n](_ => 0.0);
    assert newP[..] == seq(n, _ => 0.0);
    var targets := Targets(ranking, delta);
    y := targets;
    newP[0] := Solve(f, targets[0], low, high);
    newP[n - 1] := Solve(f, targets[n - 1], low, high);
    assert newP[..] == Ends(f, y, low, high);
    ghost var rest := DivideAndConquer(newP, f, targets, 0, n - 1);
    writes := multiset{0, n - 1} + rest;
  }

  /**
   In a contest whose participants are in order of rank, performances never rise from one to the next, stay in the
   range, and each is within 2 of the exact value (or of the end of the range it is beyond).
   */
  lemma PerformancesAreFair(ranking: seq<real>, delta: seq<Positive>, f: real -> real, y: seq<real>, roots: seq<real>,
                            low: real, high: real)
    requires |ranking| == |delta| >= 2 && AreTargets(ranking, delta, y) && low <= high
    requires forall a, b :: 0 <= a <= b < |ranking| ==> ranking[a] <= ranking[b]
    ensures Falls(PerformancesOf(f, y, low, high), 0, |y| - 1)
    ensures forall i :: 0 <= i < |y| ==> low <= PerformancesOf(f, y, low, high)[i] <= high
    ensures Exact(f, y, roots) ==>
              forall i :: 0 <= i < |y| ==> Near(PerformancesOf(f, y, low, high)[i], Clamp(roots[i], low, high))
  {
    EndsAreFair(ranking, delta, f, y, low, high);
    FilledFalls(f, y, Ends(f, y, low, high), 0, |y| - 1);
    var p := PerformancesOf(f, y, low, high);
    FilledElsewhere(f, y, Ends(f, y, low, high), 0, |y| - 1, 0);
    FilledElsewhere(f, y, Ends(f, y, low, high), 0, |y| - 1, |y| - 1);
    if Exact(f, y, roots) {
      TargetsFall(ranking, delta, y);
      RootsFall(f, y, roots);
      forall i | 0 <= i < |y| ensures Near(p[i], Clamp(roots[i], low, high)) {
        EndsAreNear(f, y, roots, low, high);
        FilledNear(f, y, Ends(f, y, low, high), roots, 0, |y| - 1, low, high, i);
      }
    }
    hide Root, Filled, Target, Near, Clamp, Exact, PerformancesOf;
  }

  lemma TargetsFall(ranking: seq<real>, delta: seq<Positive>, y: seq<real>)
    requires |ranking| == |delta| >= 2 && AreTargets(ranking, delta, y)
    requires forall a, b :: 0 <= a <= b < |ranking| ==> ranking[a] <= ranking[b]
    ensures Falls(y, 0, |y| - 1)
  {
    forall a, b | 0 <= a <= b <= |y| - 1 ensures y[b] <= y[a] {
      TargetFalls(ranking, delta, ranking[a], ranking[b]);
    }
  }

  lemma EndsAreFair(ranking: seq<real>, delta: seq<Positive>, f: real -> real, y: seq<real>, low: real, high: real)
    requires |ranking| == |delta| >= 2 && AreTargets(ranking, delta, y) && low <= high
    requires forall a, b :: 0 <= a <= b < |ranking| ==> ranking[a] <= ranking[b]
    ensures var p := Ends(f, y, low, high); low <= p[|y| - 1] <= p[0] <= high
  {
    hide Root, Target;
    var n := |y|;
    TargetFalls(ranking, delta, ranking[0], ranking[n - 1]);
    RootMonotone(f, y[n - 1], f, y[0], low, high);
    RootInside(f, y[0], low, high);
    RootInside(f, y[n - 1], low, high);
  }

  lemma EndsAreNear(f: real -> real, y: seq<real>, roots: seq<real>, low: real, high: real)
    requires |y| >= 2 && low <= high && Exact(f, y, roots)
    ensures var p := Ends(f, y, low, high);
            NearRoot(p, roots, low, high, 0) && NearRoot(p, roots, low, high, |y| - 1)
  {
    hide Root;
    RootNear(f, y[0], roots[0], low, high);
    RootNear(f, y[|y| - 1], roots[|y| - 1], low, high);
    RootInside(f, y[0], low, high);
    RootInside(f, y[|y| - 1], low, high);
  }
}
