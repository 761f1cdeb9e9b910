/** The new ratings of a contest from its ranking (judge/ratings.py). */
module Ratings {
  import opened Common
  import opened Bisection
  import opened Variance
  import opened Performances

  // ------------------------------------------------------------------------------------------------ the means

  /** The past performances of a player ranked as many times, with what each still weighs. */
  function Past(site: Site, historical: seq<real>, sd: Positive): (terms: Terms)
    ensures |terms| == |historical|
  {
    seq(|historical|, j requires 0 <= j < |historical| => Term(historical[j], sd, Weight(site, |historical|, j + 1)))
  }

  function Divisor(site: Site, times: nat): real {
    1.0 / Var(site, times + 1) - (1.0 / site.beta2 + Rest(site, times))
  }

  /** The target of a mean: where the past and the old mean alone would put it. */
  function PriorTarget(w0: real, pull: real, oldMean: real): real
    requires w0 > 0.0
  {
    w0 * (pull / w0 + oldMean)
  }

  /** The mean a performance gives against the past and the old mean, which weighs w0. */
  function Balanced(performance: real, past: Terms, w0: real, oldMean: real, sd: Positive, tanh: real -> real,
                    low: real, high: real): real
    requires w0 > 0.0
  {
    Root(Line([Term(performance, sd, 1.0)] + past, tanh, w0), PriorTarget(w0, Eval(past, tanh, oldMean), oldMean),
         low, high)
  }

  function MeanOf(site: Site, performance: real, historical: seq<real>, oldMean: real, sd: Positive, tanh: real -> real,
                  low: real, high: real): real
  {
    DivisorPositive(site, |historical|);
    Balanced(performance, Past(site, historical, sd), Divisor(site, |historical|), oldMean, sd, tanh, low, high)
  }

  lemma {:induction false} EvalFirst(first: Terms, past: Terms, tanh: real -> real, x: real)
    requires |first| == 1
    ensures Eval(first + past, tanh, x) == Contribution(first[0], tanh, x) + Eval(past, tanh, x)
  {
    if past == [] {
      assert first + past == first && first[..0] == [];
    } else {
      var n := |past| - 1;
      assert (first + past)[..n + 1] == first + past[..n];
      EvalFirst(first, past[..n], tanh, x);
    }
  }

  lemma ContributionFalls(mu: real, mu': real, sd: Positive, tanh: real -> real, x: real)
    requires Increasing(tanh) && mu <= mu'
    ensures Contribution(Term(mu', sd, 1.0), tanh, x) <= Contribution(Term(mu, sd, 1.0), tanh, x)
  {
    var z, z' := (x - mu) / (2.0 * sd), (x - mu') / (2.0 * sd);
    Quotient(x - mu', x - mu, 2.0 * sd);
    assert tanh(z') <= tanh(z) by { if z' < z { assert tanh(z') < tanh(z); } }
    assert 1.0 / sd > 0.0;
    Scale(tanh(z'), tanh(z), 1.0 / sd);
  }

  lemma Quotient(x: real, y: real, c: real)
    requires x <= y && c > 0.0
    ensures x / c <= y / c
  {}

  lemma BalancedNeverFalls(performance: real, performance': real, past: Terms, w0: real, oldMean: real, sd: Positive,
                           tanh: real -> real, low: real, high: real)
    requires Increasing(tanh) && performance <= performance' && low <= high && w0 > 0.0
    ensures Balanced(performance, past, w0, oldMean, sd, tanh, low, high)
            <= Balanced(performance', past, w0, oldMean, sd, tanh, low, high)
  {
    hide Root, Eval, Contribution;
    var first: Terms, first': Terms := [Term(performance, sd, 1.0)], [Term(performance', sd, 1.0)];
    var f, f' := Line(first + past, tanh, w0), Line(first' + past, tanh, w0);
    forall x ensures f'(x) <= f(x) {
      EvalFirst(first, past, tanh, x);
      EvalFirst(first', past, tanh, x);
      ContributionFalls(performance, performance', sd, tanh, x);
    }
    var target := PriorTarget(w0, Eval(past, tanh, oldMean), oldMean);
    RootMonotone(f, target, f', target, low, high);
  }

  /** A better performance, all else equal, never lowers a rating. */
  lemma MeanNeverFalls(site: Site, performance: real, performance': real, historical: seq<real>, oldMean: real,
                       sd: Positive, tanh: real -> real, low: real, high: real)
    requires Increasing(tanh) && performance <= performance' && low <= high
    ensures MeanOf(site, performance, historical, oldMean, sd, tanh, low, high)
            <= MeanOf(site, performance', historical, oldMean, sd, tanh, low, high)
  {
    hide Balanced, Past, Rest, Var;
    DivisorPositive(site, |historical|);
    BalancedNeverFalls(performance, performance', Past(site, historical, sd), Divisor(site, |historical|), oldMean, sd,
                       tanh, low, high);
  }

  // ----------------------------------------------------------------------------- playing at one's own level

  lemma SharePositive(v: real, more: real)
    requires v > 0.0 && more >= 0.0
    ensures Share(v, more) > 0.0
  {}

  lemma DiscountedPositive(w: real, k: real)
    requires w > 0.0 && k > 0.0
    ensures Discounted(w, k) > 0.0
  {
    StrictScale(0.0, k, w);
    StrictScale(0.0, k, w * k);
    assert w * k * k == w * (k * k);
  }

  lemma {:induction false} WeightPositive(site: Site, times: nat, j: nat)
    requires j <= times
    ensures Weight(site, times, j) > 0.0
  {
    hide Share, Discounted, Var;
    if j > 0 {
      WeightPositive(site, times, j - 1);
      SharePositive(Var(site, times + 1 - j), site.perContest);
      DiscountedPositive(Weight(site, times, j - 1), Kept(site, times + 1 - j));
    }
  }

  lemma ScaledRises(factor: real, x: real, x': real)
    requires factor > 0.0 && x < x'
    ensures factor * x < factor * x'
  {
    StrictScale(x, x', factor);
  }

  lemma {:induction false} LineRises(terms: Terms, tanh: real -> real, factor: real)
    requires terms != [] && Increasing(tanh) && factor > 0.0 && forall i :: 0 <= i < |terms| ==> terms[i].wt > 0.0
    ensures Increasing(Line(terms, tanh, factor))
  {
    hide Eval;
    forall x, x' | x < x' ensures Line(terms, tanh, factor)(x) < Line(terms, tanh, factor)(x') {
      EvalRises(terms, tanh, x, x');
      ScaledRises(factor, x, x');
    }
  }

  /** A performance equal to the mean adds nothing there. */
  lemma AtLevel(mu: real, sd: Positive, tanh: real -> real)
    requires tanh(0.0) == 0.0
    ensures Contribution(Term(mu, sd, 1.0), tanh, mu) == 0.0
  {
    assert (mu - mu) / (2.0 * sd) == 0.0;
  }

  lemma PriorIs(w0: real, pull: real, oldMean: real)
    requires w0 > 0.0
    ensures PriorTarget(w0, pull, oldMean) == pull + w0 * oldMean
  {
    assert w0 * (pull / w0) == pull;
    assert w0 * (pull / w0 + oldMean) == w0 * (pull / w0) + w0 * oldMean;
  }

  lemma BalancedAtLevel(past: Terms, w0: real, oldMean: real, sd: Positive, tanh: real -> real, low: real, high: real)
    requires Increasing(tanh) && tanh(0.0) == 0.0 && w0 > 0.0 && low <= high
    requires forall i :: 0 <= i < |past| ==> past[i].wt > 0.0
    ensures Near(Balanced(oldMean, past, w0, oldMean, sd, tanh, low, high), Clamp(oldMean, low, high))
  {
    hide Root, Eval, Contribution, PriorTarget, Near, Clamp;
    var first: Terms := [Term(oldMean, sd, 1.0)];
    var f := Line(first + past, tanh, w0);
    LineRises(first + past, tanh, w0);
    EvalFirst(first, past, tanh, oldMean);
    AtLevel(oldMean, sd, tanh);
    PriorIs(w0, Eval(past, tanh, oldMean), oldMean);
    RootNear(f, PriorTarget(w0, Eval(past, tanh, oldMean), oldMean), oldMean, low, high);
  }

  /**
   Whatever the history: a performance at the old mean leaves the mean there, within the 2 of the search and inside the
   range; a better one never puts it further below, nor a worse one further above.
   */
  lemma LevelHolds(site: Site, performance: real, historical: seq<real>, oldMean: real, sd: Positive,
                   tanh: real -> real, low: real, high: real)
    requires Increasing(tanh) && tanh(0.0) == 0.0 && low <= high
    ensures performance >= oldMean ==>
              MeanOf(site, performance, historical, oldMean, sd, tanh, low, high) >= Clamp(oldMean, low, high) - 2.0
    ensures performance <= oldMean ==>
              MeanOf(site, performance, historical, oldMean, sd, tanh, low, high) <= Clamp(oldMean, low, high) + 2.0
  {
    hide Balanced, Clamp, Weight, Divisor;
    var past := Past(site, historical, sd);
    DivisorPositive(site, |historical|);
    DivisorIs(site, |historical|);
    forall j | 0 <= j < |past| ensures past[j].wt > 0.0 { WeightPositive(site, |historical|, j + 1); }
    BalancedAtLevel(past, Divisor(site, |historical|), oldMean, sd, tanh, low, high);
    if performance >= oldMean {
      MeanNeverFalls(site, oldMean, performance, historical, oldMean, sd, tanh, low, high);
    } else {
      MeanNeverFalls(site, performance, oldMean, historical, oldMean, sd, tanh, low, high);
    }
  }

  lemma DivisorIs(site: Site, times: nat)
    ensures Divisor(site, times) > 0.0
  {
    DivisorPositive(site, times);
  }

  method Mean(cache: VarCache, performance: real, historical: seq<real>, timesRanked: nat, oldMean: real, sd: Positive,
              tanh: real -> real, low: real, high: real)
    returns (mean: real)
    requires cache.Valid() && |historical| == timesRanked
    modifies cache
    ensures cache.Valid() && mean == MeanOf(cache.site, performance, historical, oldMean, sd, tanh, low, high)
  {
    hide Root, Eval, Line, Rest, Var, Weight;
    var site := cache.site;
    var weighed, w0 := WeighHistory(cache, performance, historical, timesRanked, sd);
    var terms: Terms := weighed;
    assert terms[1..] == Past(site, historical, sd);
    assert terms == [Term(performance, sd, 1.0)] + Past(site, historical, sd);
    var past := EvalTanhs(terms[1..], tanh, oldMean);
    var p0 := past / w0 + oldMean;
    var target := w0 * p0;
    assert target == PriorTarget(w0, past, oldMean);
    mean := Solve(Line(terms, tanh, w0), target, low, high);
    assert mean == Balanced(performance, Past(site, historical, sd), w0, oldMean, sd, tanh, low, high);
    assert w0 == Divisor(site, |historical|);
  }

  /**
   recalculate_ratings(), up to the rounding of the rating shown. With fewer than two participants nothing changes.
   */
  method Recalculate(cache: VarCache, ranking: seq<real>, oldMean: seq<real>, historical: seq<seq<real>>,
                     delta: seq<Positive>, sd: Positive, tanh: real -> real, low: real, high: real)
    returns (newMean: seq<real>, newP: seq<real>, ghost y: seq<real>)
    requires cache.Valid() && |ranking| == |oldMean| == |historical| == |delta|
    modifies cache
    ensures cache.Valid() && |newMean| == |newP| == |ranking|
    ensures |ranking| < 2 ==> newMean == oldMean && newP == oldMean
    ensures |ranking| >= 2 ==>
              AreTargets(ranking, delta, y) &&
              newP == PerformancesOf(Line(Rivals(oldMean, delta), tanh, 0.0), y, low, high)
    ensures |ranking| >= 2 ==> forall i :: 0 <= i < |ranking| ==>
              newMean[i] == MeanOf(cache.site, newP[i], historical[i], oldMean[i], sd, tanh, low, high)
  {
    y := [];
    if |ranking| < 2 { return oldMean, oldMean, []; }
    var performed, targets, writes := Perform(ranking, delta, Line(Rivals(oldMean, delta), tanh, 0.0), low, high);
    newP, y := performed[..], targets;
    newMean := [];
    for i := 0 to |ranking|
      invariant cache.Valid() && |newMean| == i
      invariant forall k :: 0 <= k < i ==>
        newMean[k] == MeanOf(cache.site, newP[k], historical[k], oldMean[k], sd, tanh, low, high)
    {
      var mean := Mean(cache, newP[i], historical[i], |historical[i]|, oldMean[i], sd, tanh, low, high);
      newMean := newMean + [mean];
    }
  }

  /** The terms everybody's performance is searched against: all the participants, the player included. */
  function Rivals(oldMean: seq<real>, delta: seq<Positive>): Terms
    requires |oldMean| == |delta|
  {
    seq(|oldMean|, i requires 0 <= i < |oldMean| => Term(oldMean[i], delta[i], 1.0))
  }

  /** The function everybody's performance is searched in rises, so its exact values are the ones of the targets. */
  lemma {:induction false} RivalsRise(oldMean: seq<real>, delta: seq<Positive>, tanh: real -> real)
    requires |oldMean| == |delta| > 0 && Increasing(tanh)
    ensures Increasing(Line(Rivals(oldMean, delta), tanh, 0.0))
  {
    var terms := Rivals(oldMean, delta);
    forall x, x' | x < x' ensures Line(terms, tanh, 0.0)(x) < Line(terms, tanh, 0.0)(x') {
      EvalRises(terms, tanh, x, x');
    }
  }

  lemma {:induction false} EvalRises(terms: Terms, tanh: real -> real, x: real, x': real)
    requires terms != [] && Increasing(tanh) && x < x' && forall i :: 0 <= i < |terms| ==> terms[i].wt > 0.0
    ensures Eval(terms, tanh, x) < Eval(terms, tanh, x')
  {
    var n := |terms| - 1;
    if n > 0 { EvalRises(terms[..n], tanh, x, x'); }
    TermRises(terms[n], tanh, x, x');
    assert n == 0 ==> terms[..n] == [];
  }

  lemma TermRises(term: Term, tanh: real -> real, x: real, x': real)
    requires term.sd > 0.0 && term.wt > 0.0 && Increasing(tanh) && x < x'
    ensures Contribution(term, tanh, x) < Contribution(term, tanh, x')
  {
    var z, z' := (x - term.mu) / (2.0 * term.sd), (x' - term.mu) / (2.0 * term.sd);
    assert z < z';
    assert tanh(z) < tanh(z');
    assert term.wt / term.sd > 0.0;
    StrictScale(tanh(z), tanh(z'), term.wt / term.sd);
  }

  lemma StrictScale(t: real, t': real, c: real)
    requires t < t' && c > 0.0
    ensures c * t < c * t'
  {}

  lemma {:induction false} NothingAtLevel(terms: Terms, tanh: real -> real, m: real)
    requires tanh(0.0) == 0.0 && forall i :: 0 <= i < |terms| ==> terms[i].mu == m
    ensures Eval(terms, tanh, m) == 0.0
  {
    hide Contribution;
    if terms != [] {
      var n := |terms| - 1;
      NothingAtLevel(terms[..n], tanh, m);
      NoContribution(terms[n], tanh, m);
    }
  }

  lemma NoContribution(term: Term, tanh: real -> real, m: real)
    requires tanh(0.0) == 0.0 && term.mu == m && term.sd > 0.0
    ensures Contribution(term, tanh, m) == 0.0
  {
    assert (m - m) / (2.0 * term.sd) == 0.0;
  }

  /** A contest of equals that ends in a tie: everybody performs at their common level, within the 2 of the search. */
  lemma EqualsPerformAtLevel(ranking: seq<real>, delta: seq<Positive>, oldMean: seq<real>, y: seq<real>, m: real,
                             tanh: real -> real, low: real, high: real)
    requires |ranking| == |delta| == |oldMean| >= 2 && AreTargets(ranking, delta, y) && low <= high
    requires Increasing(tanh) && tanh(0.0) == 0.0
    requires forall i :: 0 <= i < |ranking| ==> ranking[i] == ranking[0] && oldMean[i] == m
    ensures forall i :: 0 <= i < |y| ==>
              Near(PerformancesOf(Line(Rivals(oldMean, delta), tanh, 0.0), y, low, high)[i], Clamp(m, low, high))
  {
    hide PerformancesOf, Eval, Target, Near, Clamp;
    var f := Line(Rivals(oldMean, delta), tanh, 0.0);
    var roots := seq(|y|, _ => m);
    RivalsRise(oldMean, delta, tanh);
    NothingAtLevel(Rivals(oldMean, delta), tanh, m);
    forall i | 0 <= i < |y| ensures f(roots[i]) == y[i] {
      TargetOfTies(ranking, delta, ranking[i]);
    }
    PerformancesAreFair(ranking, delta, f, y, roots, low, high);
  }
}
