/** The variance of a rating and the weights of a player's past performances (judge/ratings.py). */
module Variance {
  /** BETA2, VAR_PER_CONTEST and VAR_INIT: what follows holds for any positive numbers. */
  datatype Settings = Settings(beta2: real, perContest: real, init: real)

  type Site = s: Settings | s.beta2 > 0.0 && s.perContest > 0.0 && s.init > 0.0 witness Settings(1.0, 1.0, 1.0)

  const BETA2: real := 328.33 * 328.33
  const SITE: Settings := Settings(BETA2, 1219.047619 * (BETA2 / (212.0 * 212.0)),
                                   350.0 * 350.0 * (BETA2 / (212.0 * 212.0)))

  /** A newcomer's rating is less certain than the limit of the variances. */
  predicate StartsHigh(s: Site) {
    s.init * (s.init + s.perContest) > s.perContest * s.beta2
  }

  lemma SiteIsFine()
    ensures SITE.beta2 > 0.0 && SITE.perContest > 0.0 && SITE.init > 0.0 && StartsHigh(SITE)
  {
    assert BETA2 == 107800.5889;
    assert 2.3 < BETA2 / (212.0 * 212.0) < 2.4;
    assert SITE.init > 280000.0 && 0.0 < SITE.perContest < 3000.0;
    Larger(SITE.init, SITE.perContest, SITE.beta2);
  }

  lemma Larger(v: real, c: real, b: real)
    requires v > 280000.0 && 0.0 < c < 3000.0 && 0.0 < b < 110000.0
    ensures v * (v + c) > c * b
  {
    calc {
      v * (v + c);
    ==
      v * v + v * c;
    >
      v * c;
    >
      b * c;
    }
  }

  function Next(s: Site, v: real): real
    requires v > 0.0
  {
    Inverses(v + s.perContest, s.beta2);
    1.0 / (1.0 / (v + s.perContest) + 1.0 / s.beta2)
  }

  lemma Inverses(x: real, y: real)
    requires x > 0.0 && y > 0.0
    ensures 1.0 / x > 0.0 && 1.0 / y > 0.0
  {}

  /** The variance of a player's rating after some contests. */
  function Var(s: Site, times: nat): (v: real)
    ensures v > 0.0
  {
    if times == 0 then s.init
    else
      var v := Var(s, times - 1);
      Inverses(v + s.perContest, s.beta2);
      Inverses(1.0 / (v + s.perContest) + 1.0 / s.beta2, 1.0);
      Next(s, v)
  }

  /** get_var(): a cache that every call shares. */
  class VarCache {
    const site: Site
    var cache: seq<real>

    ghost predicate Valid()
      reads this
    {
      cache != [] && forall i :: 0 <= i < |cache| ==> cache[i] == Var(site, i)
    }

    constructor (site: Site)
      ensures Valid() && this.site == site
    {
      this.site, cache := site, [site.init];
    }

    method GetVar(timesRanked: nat) returns (v: real)
      requires Valid()
      modifies this
      ensures Valid() && v == Var(site, timesRanked)
      ensures old(cache) <= cache && |cache| == if timesRanked < |old(cache)| then |old(cache)| else timesRanked + 1
    {
      while timesRanked >= |cache|
        invariant Valid() && old(cache) <= cache
        invariant |cache| <= if timesRanked < |old(cache)| then |old(cache)| else timesRanked + 1
        decreases timesRanked - |cache|
      {
        var last := cache[|cache| - 1];
        assert last == Var(site, |cache| - 1) && Var(site, |cache|) == Next(site, last);
        Inverses(last + site.perContest, site.beta2);
        cache := cache + [1.0 / (1.0 / (last + site.perContest) + 1.0 / site.beta2)];
      }
      return cache[timesRanked];
    }
  }

  // ------------------------------------------------------------------------------------ the variance shrinks

  /** The limit of the variances: the positive root of V² + C·V = C·BETA2. */
  predicate IsLimit(s: Site, lim: real) {
    lim > 0.0 && lim * (lim + s.perContest) == s.perContest * s.beta2
  }

  lemma Harmonic(x: real, b: real, next: real)
    requires x > 0.0 && b > 0.0 && 1.0 / x + 1.0 / b > 0.0 && next == 1.0 / (1.0 / x + 1.0 / b)
    ensures next > 0.0 && 1.0 / next == 1.0 / x + 1.0 / b && next * (x + b) == x * b
  {
    var s := 1.0 / x + 1.0 / b;
    assert next * s == 1.0;
    assert s * (x * b) == x + b by {
      assert (1.0 / x) * x == 1.0 && (1.0 / b) * b == 1.0;
      assert s * (x * b) == ((1.0 / x) * x) * b + ((1.0 / b) * b) * x;
    }
    assert next * (x + b) == (next * s) * (x * b);
  }

  lemma BelowInformation(lim: real, c: real, b: real)
    requires c > 0.0 && b > 0.0 && lim > 0.0 && lim * (lim + c) == c * b
    ensures lim < b
  {
    if lim >= b { Exceeds(lim, c, b); }
  }

  lemma Exceeds(x: real, c: real, b: real)
    requires x >= b > 0.0 && c > 0.0
    ensures x * (x + c) > c * b
  {
    calc {
      x * (x + c);
    >=
      b * (x + c);
    ==
      b * x + b * c;
    >
      b * c;
    }
  }

  lemma StartsAbove(v: real, lim: real, c: real, b: real)
    requires v > 0.0 && lim > 0.0 && c > 0.0 && v * (v + c) > c * b == lim * (lim + c)
    ensures v > lim
  {
    if v <= lim {
      Times(v, v + c, lim + c);
      Times(lim + c, v, lim);
    }
  }

  lemma Times(c: real, x: real, y: real)
    requires c >= 0.0 && x <= y
    ensures c * x <= c * y && x * c <= y * c
  {}

  lemma Product(x: real, y: real)
    requires x > 0.0 && y > 0.0
    ensures x * y > 0.0
  {}

  lemma Shrinks(v: real, lim: real, c: real, b: real, next: real)
    requires c > 0.0 && b > 0.0 && lim > 0.0 && lim * (lim + c) == c * b && v > lim
    requires next * (v + c + b) == (v + c) * b
    ensures lim < next < v
  {
    BelowInformation(lim, c, b);
    Product(v - lim, b - lim);
    Product(v - lim, v + lim + c);
    assert (next - lim) * (v + c + b) == (v - lim) * (b - lim);
    assert (v - next) * (v + c + b) == (v - lim) * (v + lim + c);
  }

  /** Every contest makes a rating more certain, but never more than the limit. */
  lemma {:induction false} VarianceShrinks(s: Site, times: nat, lim: real)
    requires IsLimit(s, lim) && StartsHigh(s)
    ensures lim < Var(s, times + 1) < Var(s, times)
  {
    hide IsLimit, StartsHigh;
    if times > 0 { VarianceShrinks(s, times - 1, lim); } else { StartsOver(s, lim); }
    OneStep(s, Var(s, times), lim);
  }

  lemma StartsOver(s: Site, lim: real)
    requires IsLimit(s, lim) && StartsHigh(s)
    ensures s.init > lim
  {
    StartsAbove(s.init, lim, s.perContest, s.beta2);
  }

  lemma OneStep(s: Site, v: real, lim: real)
    requires IsLimit(s, lim) && v > lim
    ensures v > 0.0 && lim < Next(s, v) < v
  {
    Inverses(v + s.perContest, s.beta2);
    Harmonic(v + s.perContest, s.beta2, Next(s, v));
    Shrinks(v, lim, s.perContest, s.beta2, Next(s, v));
  }

  // ------------------------------------------------------------------------------- the weights of the history

  function Share(v: real, more: real): real
    requires v > 0.0 && more >= 0.0
  {
    v / (v + more)
  }

  /** What is kept of a performance at each later contest. */
  function Kept(s: Site, times: nat): real {
    Share(Var(s, times), s.perContest)
  }

  function Discounted(w: real, k: real): real {
    w * (k * k)
  }

  function Carried(w: real, rest: real): real {
    w * rest
  }

  /** The information of a performance of some weight. */
  function Information(s: Site, w: real): real {
    w / s.beta2
  }

  /** The weight of the performance j contests ago, of a player ranked before some times. */
  function Weight(s: Site, times: nat, j: nat): real
    requires j <= times
  {
    if j == 0 then 1.0 else Discounted(Weight(s, times, j - 1), Kept(s, times + 1 - j))
  }

  /** What the history adds, seen from one contest on: the part kept of its own performance and of those before. */
  function Rest(s: Site, times: nat): real {
    if times == 0 then 0.0 else Kept(s, times) * Kept(s, times) * (1.0 / s.beta2 + Rest(s, times - 1))
  }

  lemma KeptLess(v: real, c: real, inner: real, k: real, full: real)
    requires v > 0.0 && c > 0.0 && inner < 1.0 / v && k == v / (v + c) && full == k * k * inner
    ensures full < 1.0 / (v + c)
  {
    var r := 1.0 / (v + c);
    assert k * (v + c) == v && r * (v + c) == 1.0 && r > 0.0;
    assert 0.0 < k < 1.0;
    assert k == v * r by { assert (k - v * r) * (v + c) == 0.0; }
    assert k * k > 0.0;
    assert k * k * inner < k * k * (1.0 / v);
    assert k * k * (1.0 / v) == k * r by { assert k * k * (1.0 / v) == k * r * (v * (1.0 / v)); }
    assert k * r < r;
  }

  /** The recurrence leaves more information than the history takes away. */
  lemma {:induction false} RestBelow(s: Site, times: nat)
    ensures Rest(s, times) < 1.0 / (Var(s, times) + s.perContest)
  {
    if times > 0 {
      RestBelow(s, times - 1);
      Inverses(Var(s, times - 1) + s.perContest, s.beta2);
      Harmonic(Var(s, times - 1) + s.perContest, s.beta2, Var(s, times));
      RestIs(s, times);
      KeptLess(Var(s, times), s.perContest, 1.0 / s.beta2 + Rest(s, times - 1), Kept(s, times), Rest(s, times));
    } else {
      Inverses(Var(s, 0) + s.perContest, 1.0);
    }
  }

  /** The divisor of the mean update is positive for any number of contests. */
  lemma DivisorPositive(s: Site, times: nat)
    ensures 1.0 / Var(s, times + 1) - (1.0 / s.beta2 + Rest(s, times)) > 0.0
  {
    RestBelow(s, times);
    Inverses(Var(s, times) + s.perContest, s.beta2);
    Harmonic(Var(s, times) + s.perContest, s.beta2, Var(s, times + 1));
  }

  /** The sum of the weights so far and what the rest of the history adds to it: always the same. */
  ghost predicate Weighed(s: Site, times: nat, j: nat, w: real, sum: real)
    requires j <= times
  {
    w == Weight(s, times, j) && sum + Carried(w, Rest(s, times - j)) == 1.0 / s.beta2 + Rest(s, times)
  }

  lemma FirstWeighed(s: Site, times: nat, v: real)
    requires v > 0.0
    ensures var w := Discounted(1.0, Share(v, 0.0)); w == 1.0 && Weighed(s, times, 0, w, 0.0 + Information(s, w))
  {
    assert v / v == 1.0;
  }

  lemma NextWeighed(s: Site, times: nat, j: nat, last: real, sum: real, w: real)
    requires j < times && Weighed(s, times, j, last, sum) && w == Discounted(last, Kept(s, times - j))
    ensures Weighed(s, times, j + 1, w, sum + Information(s, w))
  {
    hide Carried, Information, Discounted, Var, Kept;
    RestIs(s, times - j);
    Distribute(s, last, Kept(s, times - j), Rest(s, times - j - 1), w, Rest(s, times - j));
  }

  lemma RestIs(s: Site, times: nat)
    requires times > 0
    ensures Rest(s, times) == Kept(s, times) * Kept(s, times) * (1.0 / s.beta2 + Rest(s, times - 1))
  {
    hide Kept, Var, Next;
  }

  lemma LastWeighed(s: Site, times: nat, w: real, sum: real)
    requires Weighed(s, times, times, w, sum)
    ensures sum == 1.0 / s.beta2 + Rest(s, times)
  {}

  lemma Distribute(s: Site, last: real, k: real, rest: real, w: real, full: real)
    requires w == Discounted(last, k) && full == k * k * (1.0 / s.beta2 + rest)
    ensures Information(s, w) + Carried(w, rest) == Carried(last, full)
  {
    Regroup(last, k * k, 1.0 / s.beta2 + rest);
    OverSum(w, s.beta2, rest);
  }

  lemma Regroup(x: real, y: real, z: real)
    ensures x * (y * z) == x * y * z
  {}

  lemma OverSum(w: real, b: real, rest: real)
    requires b != 0.0
    ensures w * (1.0 / b + rest) == w / b + w * rest
  {
    assert w / b == w * (1.0 / b);
  }

  datatype Term = Term(mu: real, sd: real, wt: real)

  /** The terms of the mean update, their weights from the newest performance back, and the divisor. */
  method WeighHistory(cache: VarCache, performance: real, historical: seq<real>, timesRanked: nat, sd: real)
    returns (terms: seq<Term>, w0: real)
    requires cache.Valid() && |historical| == timesRanked
    modifies cache
    ensures cache.Valid()
    ensures |terms| == timesRanked + 1 && terms[0] == Term(performance, sd, 1.0)
    ensures forall j :: 1 <= j <= timesRanked ==>
              terms[j] == Term(historical[j - 1], sd, Weight(cache.site, timesRanked, j))
    ensures w0 == 1.0 / Var(cache.site, timesRanked + 1)
                  - (1.0 / cache.site.beta2 + Rest(cache.site, timesRanked)) > 0.0
  {
    var s := cache.site;
    hide Rest, Var, Next, Weight, Kept, Discounted, Information, SoFar, Share;
    terms := [];
    var performances := [performance] + historical;
    var wPrev, wSum := 1.0, 0.0;
    NothingSoFar(s, timesRanked);
    for j := 0 to |performances|
      invariant cache.Valid() && |terms| == j && SoFar(s, timesRanked, j, wPrev, wSum)
      invariant forall i :: 0 <= i < j ==> terms[i] == Term(performances[i], sd, Weight(s, timesRanked, i))
    {
      var gamma2 := if j > 0 then s.perContest else 0.0;
      var hVar := cache.GetVar(timesRanked + 1 - j);
      var k := Share(hVar, gamma2);
      var w := Discounted(wPrev, k);
      OneMore(s, timesRanked, j, wPrev, wSum, k);
      terms := terms + [Term(performances[j], sd, w)];
      wPrev, wSum := w, wSum + Information(s, w);
    }
    AllSoFar(s, timesRanked, wPrev, wSum);
    var v := cache.GetVar(timesRanked + 1);
    w0 := 1.0 / v - wSum;
  }

  /** The last weight and the sum after j performances. */
  ghost predicate SoFar(s: Site, times: nat, j: nat, w: real, sum: real)
    requires j <= times + 1
  {
    if j == 0 then w == 1.0 && sum == 0.0 else Weighed(s, times, j - 1, w, sum)
  }

  lemma NothingSoFar(s: Site, times: nat)
    ensures SoFar(s, times, 0, 1.0, 0.0)
  {}

  lemma OneMore(s: Site, times: nat, j: nat, last: real, sum: real, k: real)
    requires j <= times && SoFar(s, times, j, last, sum)
    requires k == Share(Var(s, times + 1 - j), if j > 0 then s.perContest else 0.0)
    ensures var w := Discounted(last, k);
            w == Weight(s, times, j) && SoFar(s, times, j + 1, w, sum + Information(s, w))
  {
    hide Rest, Var, Next, Weighed, Discounted, Information;
    if j > 0 {
      NextWeighed(s, times, j - 1, last, sum, Discounted(last, k));
    } else {
      FirstWeighed(s, times, Var(s, times + 1));
    }
    WeighedIs(s, times, j, Discounted(last, k), sum + Information(s, Discounted(last, k)));
  }

  lemma AllSoFar(s: Site, times: nat, w: real, sum: real)
    requires SoFar(s, times, times + 1, w, sum)
    ensures sum == 1.0 / s.beta2 + Rest(s, times) && Weight(s, times, 0) == 1.0
    ensures 1.0 / Var(s, times + 1) - sum > 0.0
  {
    hide Rest, Var, Next;
    LastWeighed(s, times, w, sum);
    DivisorPositive(s, times);
  }

  lemma WeighedIs(s: Site, times: nat, j: nat, w: real, sum: real)
    requires j <= times && Weighed(s, times, j, w, sum)
    ensures w == Weight(s, times, j)
  {}
}
