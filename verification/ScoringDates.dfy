/**
 What a tie on points is decided by, from the attempts alone: when each player had the whole of their score, and how
 many of their attempts failed in front of the best one on their problem.
 */
module ScoringDates {
  import opened Common
  import opened Scoring
  import opened ScoringOrder
  import opened ScoringRows
  import opened ScoringLoops
  import opened ArenaFinal
  import opened ArenaPending

  /** The most an attempt on the problem is worth. */
  function PointsOn(at: seq<Attempt>, p: nat, full: nat, partial: bool): nat {
    if at == [] then 0
    else Max(if at[0].problem == p then PointsOf(at[0], full, partial) else 0, PointsOn(at[1..], p, full, partial))
  }

  function ScoreOf(at: seq<Attempt>, problems: seq<nat>, partial: bool): nat {
    Sum(seq(|problems|, p requires 0 <= p < |problems| => PointsOn(at, p, problems[p], partial)))
  }

  /** The attempts up to some moment. */
  function Until(at: seq<Attempt>, t: int): seq<Attempt> {
    if at == [] then [] else (if at[0].date <= t then [at[0]] else []) + Until(at[1..], t)
  }

  /** By then the score was what it is now. */
  predicate WholeBy(at: seq<Attempt>, problems: seq<nat>, partial: bool, t: int) {
    ScoreOf(Until(at, t), problems, partial) == ScoreOf(at, problems, partial)
  }

  /** The failed attempts that are charged: those in front of the first best one on their problem. */
  ghost function Charged(at: seq<Attempt>, problems: seq<nat>, partial: bool): set<nat> {
    set k: nat | k < |at| && IsCharged(at, problems, partial, k)
  }

  predicate IsCharged(at: seq<Attempt>, problems: seq<nat>, partial: bool, k: nat)
    requires k < |at|
  {
    (at[k].status.D? || at[k].status.AB?) && at[k].problem < |problems| &&
    exists i :: k < i < |at| && Peak(at, i, at[k].problem, problems[at[k].problem], partial)
  }

  // ---------------------------------------------------------------------------------------------- the score

  lemma {:induction false} BestOfLine(at: seq<Attempt>, p: nat, full: nat, partial: bool)
    ensures Best(Line(at, p, full, partial, false)) == PointsOn(at, p, full, partial)
  {
    if at != [] {
      BestOfLine(at[1..], p, full, partial);
      LineFront(at, p, full, partial, false);
      var rest := Line(at[1..], p, full, partial, false);
      if at[0].problem == p {
        BestOfConcat([Imagined(at[0], full, partial, false)], rest);
      } else {
        assert [] + rest == rest;
      }
    }
  }

  lemma {:induction false} TotalIsSum(rows: seq<Row>, points: seq<nat>)
    requires |rows| == |points| && forall p :: 0 <= p < |rows| ==> rows[p].best == points[p]
    ensures Total(rows) == Sum(points)
  {
    if rows != [] { TotalIsSum(rows[..|rows| - 1], points[..|rows| - 1]); }
  }

  lemma RowsOfConfirmed(at: seq<Attempt>, problems: seq<nat>, partial: bool, penalty: nat, startedAt: int)
    requires Ordered(at)
    ensures var s := Confirmed(at, problems, partial, penalty, startedAt);
            s == FromRows(s.problems, penalty, startedAt) && |s.problems| == |problems| &&
            forall p :: 0 <= p < |problems| ==>
              s.problems[p] == WorstRow(Judged(at), p, problems[p], partial) && SoundRow(s.problems[p]) &&
              s.problems[p].best == PointsOn(at, p, problems[p], partial)
  {
    RowsOfBoth(at, problems, partial, penalty, startedAt);
    var s := Confirmed(at, problems, partial, penalty, startedAt);
    hide *;
    forall p | 0 <= p < |problems| ensures s.problems[p].best == PointsOn(at, p, problems[p], partial) {
      RowIsPoints(at, p, problems[p], partial);
    }
  }

  lemma RowIsPoints(at: seq<Attempt>, p: nat, full: nat, partial: bool)
    ensures WorstRow(Judged(at), p, full, partial).best == PointsOn(at, p, full, partial)
  {
    RowsDiffer(at, p, full, partial);
    RowsAreSound(Line(at, p, full, partial, false), full);
    BestOfLine(at, p, full, partial);
    hide RowOf;
  }

  /** The score is the most points on every problem, added up. */
  lemma ScoreIs(at: seq<Attempt>, problems: seq<nat>, partial: bool, penalty: nat, startedAt: int)
    requires Ordered(at)
    ensures Confirmed(at, problems, partial, penalty, startedAt).score == ScoreOf(at, problems, partial)
  {
    hide Confirmed, PointsOn, Sum, Total;
    RowsOfConfirmed(at, problems, partial, penalty, startedAt);
    TotalIsSum(Confirmed(at, problems, partial, penalty, startedAt).problems,
               seq(|problems|, p requires 0 <= p < |problems| => PointsOn(at, p, problems[p], partial)));
  }

  // ----------------------------------------------------------------------------- when the whole score was there

  lemma {:induction false} UntilSplits(at: seq<Attempt>, t: int) returns (n: nat)
    requires Ordered(at)
    ensures n <= |at| && Until(at, t) == at[..n]
    ensures (forall a :: a in at[..n] ==> a.date <= t) && forall a :: a in at[n..] ==> a.date > t
  {
    if at == [] || at[0].date > t {
      n := 0;
      NoneUntil(at, t);
    } else {
      hide Ordered;
      RestOrdered(at);
      var m := UntilSplits(at[1..], t);
      n := m + 1;
      assert at[..n] == [at[0]] + at[1..][..m] && at[n..] == at[1..][m..];
    }
  }

  lemma RestOrdered(at: seq<Attempt>)
    requires Ordered(at) && at != []
    ensures Ordered(at[1..])
  {}

  lemma {:induction false} NoneUntil(at: seq<Attempt>, t: int)
    requires Ordered(at) && (at != [] ==> at[0].date > t)
    ensures Until(at, t) == [] && forall a :: a in at ==> a.date > t
  {
    if |at| > 1 {
      NoneUntil(at[1..], t);
      assert at == [at[0]] + at[1..];
    }
  }

  /** The row of a problem is the same without its later events exactly when it was reached in time. */
  lemma RowUntil(x: seq<Event>, y: seq<Event>, full: nat, t: int)
    requires (forall e :: e in x ==> e.date <= t) && forall e :: e in y ==> e.date > t
    ensures var row := RowOf(x + y, full);
            Best(x) <= row.best && (Best(x) == row.best <==> row.bestAt.None? || row.bestAt.value <= t)
  {
    hide Best, Failed;
    BestOfConcat(x, y);
    BestIsReached(x);
    BestIsReached(x + y);
    var i := First(x + y, Best(x + y));
    if 0 < Best(x + y) {
      assert (x + y)[i] == if i < |x| then x[i] else y[i - |x|];
      if i < |x| { assert x[i] in x; } else { assert y[i - |x|] in y; }
      if Best(x) == Best(x + y) {
        var j := First(x, Best(x));
        assert (x + y)[j] == x[j];
      }
    }
  }

  lemma LineDates(at: seq<Attempt>, p: nat, full: nat, partial: bool)
    ensures forall e :: e in Line(at, p, full, partial, false) ==> exists a :: a in at && a.date == e.date
  {
    LineComesFrom(at, p, full, partial, false);
  }

  lemma PointsUntil(at: seq<Attempt>, p: nat, full: nat, partial: bool, t: int)
    requires Ordered(at)
    ensures var row, early := WorstRow(Judged(at), p, full, partial), PointsOn(Until(at, t), p, full, partial);
            early <= row.best && (early == row.best <==> row.bestAt.None? || row.bestAt.value <= t)
  {
    hide PointsOn, RowOf, Line, Judged;
    var n := UntilSplits(at, t);
    assert at == at[..n] + at[n..];
    JudgedOfConcat(at[..n], at[n..]);
    JudgedAreAmong(at[..n]);
    JudgedAreAmong(at[n..]);
    var x, y := Line(Judged(at[..n]), p, full, partial, false), Line(Judged(at[n..]), p, full, partial, false);
    LineOfConcat(Judged(at[..n]), Judged(at[n..]), p, full, partial, false);
    LineDates(Judged(at[..n]), p, full, partial);
    LineDates(Judged(at[n..]), p, full, partial);
    RowUntil(x, y, full, t);
    RowIsPoints(at[..n], p, full, partial);
    RowsAreSound(x, full);
  }

  lemma {:induction false} SumUntil(rows: seq<Row>, points: seq<nat>, early: seq<nat>, t: int)
    requires |rows| == |points| == |early|
    requires forall p :: 0 <= p < |rows| ==>
               early[p] <= points[p] && (early[p] == points[p] <==> rows[p].bestAt.None? || rows[p].bestAt.value <= t)
    ensures Sum(early) <= Sum(points)
    ensures Sum(early) == Sum(points) <==> Reach(rows).None? || Reach(rows).value <= t
  {
    if rows != [] {
      var n := |rows| - 1;
      SumUntil(rows[..n], points[..n], early[..n], t);
    }
  }

  /** What a standing calls its date is the moment from which the whole score was there. */
  lemma ReachIsWhen(at: seq<Attempt>, problems: seq<nat>, partial: bool, penalty: nat, startedAt: int, t: int)
    requires Ordered(at)
    ensures var s := Confirmed(at, problems, partial, penalty, startedAt);
            (s.score > 0 <==> s.reach.Some?) &&
            (s.reach.Some? ==> (WholeBy(at, problems, partial, t) <==> s.reach.value <= t))
  {
    hide Confirmed, PointsOn, WorstRow, Sum, Reach, Total, Until;
    var s := Confirmed(at, problems, partial, penalty, startedAt);
    RowsOfConfirmed(at, problems, partial, penalty, startedAt);
    var points := seq(|problems|, p requires 0 <= p < |problems| => PointsOn(at, p, problems[p], partial));
    var early := seq(|problems|, p requires 0 <= p < |problems| => PointsOn(Until(at, t), p, problems[p], partial));
    forall p | 0 <= p < |problems|
      ensures early[p] <= points[p]
      ensures early[p] == points[p] <==> s.problems[p].bestAt.None? || s.problems[p].bestAt.value <= t
    {
      PointsUntil(at, p, problems[p], partial, t);
    }
    SumUntil(s.problems, points, early, t);
    ReachIffPoints(s.problems);
  }

  // ------------------------------------------------------------------------------------ the failed attempts

  ghost function FailedOn(at: seq<Attempt>, p: nat): set<nat> {
    set k: nat | k < |at| && at[k].problem == p && at[k].Penalizable()
  }

  lemma {:induction false} FailedAreCounted(at: seq<Attempt>, p: nat, full: nat, partial: bool)
    ensures Failed(Line(Judged(at), p, full, partial, false)) == |FailedOn(at, p)|
  {
    hide Failed, Line, Judged, Attempt.Penalizable;
    if at == [] {
      NoneFailed(p, full, partial);
    } else {
      var n := |at| - 1;
      var init, last := at[..n], at[n];
      assert at == init + [last];
      FailedAreCounted(init, p, full, partial);
      JudgedOfConcat(init, [last]);
      LineOfConcat(Judged(init), Judged([last]), p, full, partial, false);
      FailedOfConcat(Line(Judged(init), p, full, partial, false), Line(Judged([last]), p, full, partial, false));
      FailedOfOne(last, p, full, partial);
      if last.problem == p && last.Penalizable() {
        assert FailedOn(at, p) == FailedOn(init, p) + {n};
      } else {
        assert FailedOn(at, p) == FailedOn(init, p);
      }
    }
  }

  lemma NoneFailed(p: nat, full: nat, partial: bool)
    ensures Failed(Line(Judged([]), p, full, partial, false)) == |FailedOn([], p)|
  {
    assert FailedOn([], p) == {};
  }

  lemma FailedOfOne(a: Attempt, p: nat, full: nat, partial: bool)
    ensures Failed(Line(Judged([a]), p, full, partial, false)) == if a.problem == p && a.Penalizable() then 1 else 0
  {
    if a.Pending() {
      assert Judged([a]) == [];
    } else {
      assert Judged([a]) == [a];
      LineFront([a], p, full, partial, false);
    }
  }

  ghost function ChargedOn(at: seq<Attempt>, problems: seq<nat>, partial: bool, p: nat): set<nat> {
    set k: nat | k in Charged(at, problems, partial) && at[k].problem == p
  }

  lemma PenalizedOn(at: seq<Attempt>, problems: seq<nat>, partial: bool, p: nat)
    requires p < |problems|
    ensures WorstRow(Judged(at), p, problems[p], partial).penalized == |ChargedOn(at, problems, partial, p)|
  {
    var full := problems[p];
    if exists a :: a in at && a.problem == p && PointsOf(a, full, partial) > 0 {
      var i := SomePeak(at, p, full, partial);
      PenalizedBefore(at, i, p, full, partial);
      ChargedBefore(at, problems, partial, p, i);
    } else {
      NoPeak(at, p, full, partial);
      NoneCharged(at, problems, partial, p);
    }
  }

  lemma ChargedBefore(at: seq<Attempt>, problems: seq<nat>, partial: bool, p: nat, i: nat)
    requires p < |problems| && Peak(at, i, p, problems[p], partial)
    ensures ChargedOn(at, problems, partial, p) == FailedOn(at[..i], p)
  {
    hide PointsOf;
    forall k: nat ensures k in ChargedOn(at, problems, partial, p) <==> k in FailedOn(at[..i], p) {
      if k in Charged(at, problems, partial) && at[k].problem == p {
        var j :| k < j < |at| && Peak(at, j, p, problems[p], partial);
        OnePeak(at, i, j, p, problems[p], partial);
      }
    }
  }

  lemma NoneCharged(at: seq<Attempt>, problems: seq<nat>, partial: bool, p: nat)
    requires p < |problems| && forall a :: a in at && a.problem == p ==> PointsOf(a, problems[p], partial) == 0
    ensures ChargedOn(at, problems, partial, p) == {}
  {
    forall i | 0 <= i < |at| ensures !Peak(at, i, p, problems[p], partial) { assert at[i] in at; }
  }

  lemma PenalizedBefore(at: seq<Attempt>, i: nat, p: nat, full: nat, partial: bool)
    requires Peak(at, i, p, full, partial)
    ensures WorstRow(Judged(at), p, full, partial).penalized == |FailedOn(at[..i], p)|
  {
    hide WorstRow, Line, Judged;
    var x, y := at[..i], at[i + 1..];
    assert at == x + [at[i]] + y;
    JudgedOfConcat(x + [at[i]], y);
    JudgedOfConcat(x, [at[i]]);
    OneJudged(at[i], full, partial);
    JudgedAreAmong(x);
    JudgedAreAmong(y);
    forall b | b in x && b.problem == p ensures PointsOf(b, full, partial) < PointsOf(at[i], full, partial) {
      var k :| 0 <= k < i && at[k] == b;
    }
    forall b | b in y && b.problem == p ensures PointsOf(b, full, partial) <= PointsOf(at[i], full, partial) {
      var k :| i < k < |at| && at[k] == b;
    }
    RowAtPeak(Judged(x), at[i], Judged(y), p, full, partial);
    FailedAreCounted(x, p, full, partial);
  }

  lemma OneJudged(a: Attempt, full: nat, partial: bool)
    ensures PointsOf(a, full, partial) > 0 ==> Judged([a]) == [a]
  {
    assert Judged([]) == [];
  }

  lemma {:induction false} PenalizedUpTo(at: seq<Attempt>, problems: seq<nat>, partial: bool, rows: seq<Row>, n: nat)
    requires n <= |rows| == |problems|
    requires forall p :: 0 <= p < |rows| ==> rows[p].penalized == |ChargedOn(at, problems, partial, p)|
    ensures TotalPenalized(rows[..n]) == |set k: nat | k in Charged(at, problems, partial) && at[k].problem < n|
  {
    hide IsCharged;
    var now := set k: nat | k in Charged(at, problems, partial) && at[k].problem < n;
    if n == 0 {
      assert now == {};
    } else {
      PenalizedUpTo(at, problems, partial, rows, n - 1);
      var before := set k: nat | k in Charged(at, problems, partial) && at[k].problem < n - 1;
      assert rows[..n][..n - 1] == rows[..n - 1];
      assert now == before + ChargedOn(at, problems, partial, n - 1);
    }
  }

  /** What a standing is charged for: the attempts that failed in front of the best one on their problem. */
  lemma PenalizedAre(at: seq<Attempt>, problems: seq<nat>, partial: bool, penalty: nat, startedAt: int)
    requires Ordered(at)
    ensures Confirmed(at, problems, partial, penalty, startedAt).penalized == |Charged(at, problems, partial)|
  {
    hide Confirmed, WorstRow, TotalPenalized, IsCharged;
    var rows := Confirmed(at, problems, partial, penalty, startedAt).problems;
    RowsOfConfirmed(at, problems, partial, penalty, startedAt);
    forall p | 0 <= p < |problems| ensures rows[p].penalized == |ChargedOn(at, problems, partial, p)| {
      PenalizedOn(at, problems, partial, p);
    }
    PenalizedUpTo(at, problems, partial, rows, |problems|);
    assert rows[..|problems|] == rows;
    ChargedAreOnProblems(at, problems, partial);
    assert Charged(at, problems, partial)
           == set k: nat | k in Charged(at, problems, partial) && at[k].problem < |problems|;
  }

  lemma ChargedAreOnProblems(at: seq<Attempt>, problems: seq<nat>, partial: bool)
    ensures forall k :: k in Charged(at, problems, partial) ==> at[k].problem < |problems|
  {}

  // ------------------------------------------------------------------------------------------- ties on points

  /** At the same score, `first` had the whole of it some time before `second`, a minute counted for each penalty. */
  ghost predicate Sooner(first: seq<Attempt>, second: seq<Attempt>, problems: seq<nat>, partial: bool, penalty: nat) {
    var handicap := Handicap(first, second, problems, partial, penalty);
    exists t :: WholeBy(first, problems, partial, t) && !WholeBy(second, problems, partial, t + handicap)
  }

  /** Microseconds `first` is charged more than `second`. */
  ghost function Handicap(first: seq<Attempt>, second: seq<Attempt>, problems: seq<nat>, partial: bool,
                          penalty: nat): int
  {
    60_000_000 * penalty * (|Charged(first, problems, partial)| - |Charged(second, problems, partial)|)
  }

  lemma Minutes(penalty: nat, m: nat, n: nat)
    ensures penalty * MINUTE * m - penalty * MINUTE * n == 60_000_000 * penalty * (m - n)
  {
    var c := 60_000_000 * penalty;
    assert penalty * MINUTE == c;
    assert c * m - c * n == c * (m - n);
  }

  /** The comparison of two players, in terms of their attempts alone. */
  lemma BeatsMeans(first: seq<Attempt>, second: seq<Attempt>, problems: seq<nat>, partial: bool, penalty: nat,
                   startedAt: int)
    requires Ordered(first) && Ordered(second)
    ensures var s, s' := ScoreOf(first, problems, partial), ScoreOf(second, problems, partial);
            Beats(Confirmed(first, problems, partial, penalty, startedAt),
                  Confirmed(second, problems, partial, penalty, startedAt))
            <==> s > s' || (s == s' > 0 && Sooner(first, second, problems, partial, penalty))
  {
    hide Confirmed, ScoreOf, WholeBy, Charged;
    var x, y := Confirmed(first, problems, partial, penalty, startedAt),
                Confirmed(second, problems, partial, penalty, startedAt);
    ScoreIs(first, problems, partial, penalty, startedAt);
    ScoreIs(second, problems, partial, penalty, startedAt);
    if x.score == y.score > 0 {
      EffectiveIs(first, problems, partial, penalty, startedAt);
      EffectiveIs(second, problems, partial, penalty, startedAt);
      Minutes(penalty, x.penalized, y.penalized);
      var h := Handicap(first, second, problems, partial, penalty);
      assert x.effective.value < y.effective.value <==> x.reach.value + h < y.reach.value;
      SoonerIs(first, second, problems, partial, penalty, x.reach.value, y.reach.value);
    }
  }

  lemma EffectiveIs(at: seq<Attempt>, problems: seq<nat>, partial: bool, penalty: nat, startedAt: int)
    requires Ordered(at) && Confirmed(at, problems, partial, penalty, startedAt).score > 0
    ensures var s := Confirmed(at, problems, partial, penalty, startedAt);
            s.reach.Some? && s.effective == Some(s.reach.value - startedAt + penalty * MINUTE * s.penalized) &&
            s.penalized == |Charged(at, problems, partial)| &&
            forall t :: WholeBy(at, problems, partial, t) <==> s.reach.value <= t
  {
    hide Confirmed, WholeBy, Charged, Reach, TotalPenalized, Total;
    RowsOfConfirmed(at, problems, partial, penalty, startedAt);
    PenalizedAre(at, problems, partial, penalty, startedAt);
    forall t ensures var s := Confirmed(at, problems, partial, penalty, startedAt);
                     s.reach.Some? && (WholeBy(at, problems, partial, t) <==> s.reach.value <= t)
    {
      ReachIsWhen(at, problems, partial, penalty, startedAt, t);
    }
    ReachIsWhen(at, problems, partial, penalty, startedAt, 0);
  }

  lemma SoonerIs(first: seq<Attempt>, second: seq<Attempt>, problems: seq<nat>, partial: bool, penalty: nat,
                 r: int, r': int)
    requires forall t :: WholeBy(first, problems, partial, t) <==> r <= t
    requires forall t :: WholeBy(second, problems, partial, t) <==> r' <= t
    ensures Sooner(first, second, problems, partial, penalty)
            <==> r + Handicap(first, second, problems, partial, penalty) < r'
  {
    hide WholeBy, Handicap;
    var h := Handicap(first, second, problems, partial, penalty);
    if r + h < r' {
      assert WholeBy(first, problems, partial, r) && !WholeBy(second, problems, partial, r + h);
    }
  }

  /**
   The final call in terms of the attempts alone: more points win; the same points go to whoever had all of theirs
   sooner, each charged attempt counting as the minutes of the penalty; otherwise it is a tie.
   */
  lemma FinalCallMeans(a: seq<Attempt>, b: seq<Attempt>, problems: seq<nat>, rules: Rules,
                       startedAt: int, endsAt: int, now: int)
    requires startedAt <= endsAt && Ordered(a) && Ordered(b)
    ensures var s, s' := ScoreOf(a, problems, rules.partial), ScoreOf(b, problems, rules.partial);
            DecideIgnoringPending(a, b, problems, rules, startedAt, endsAt, now)
            == if s > s' then Finish(A, MorePoints)
               else if s' > s then Finish(B, MorePoints)
               else if s > 0 && Sooner(a, b, problems, rules.partial, rules.penalty) then Finish(A, Earlier)
               else if s > 0 && Sooner(b, a, problems, rules.partial, rules.penalty) then Finish(B, Earlier)
               else Tie
  {
    hide DecideIgnoringPending, Confirmed, ScoreOf, Sooner, Beats;
    FinalCallByConfirmed(a, b, problems, rules, startedAt, endsAt, now);
    BeatsMeans(a, b, problems, rules.partial, rules.penalty, startedAt);
    BeatsMeans(b, a, problems, rules.partial, rules.penalty, startedAt);
    ScoreIs(a, problems, rules.partial, rules.penalty, startedAt);
    ScoreIs(b, problems, rules.partial, rules.penalty, startedAt);
  }

  // -------------------------------------------------------- what an attempt is worth, and how many are left

  /** The nearest thousandth, the even one of two. */
  predicate Nearest(points: nat, share: real) {
    -0.5 <= points as real - share <= 0.5 &&
    (points as real - share == 0.5 || points as real - share == -0.5 ==> points % 2 == 0)
  }

  lemma NearestUpTo(share: real, full: nat)
    requires share >= 0.0
    ensures 0 <= RoundHalfEven(share)
    ensures if share >= full as real then Min(full, RoundHalfEven(share)) == full
            else Nearest(Min(full, RoundHalfEven(share)), share)
  {}

  lemma PartialIs(a: Attempt, full: nat)
    requires a.status.D? && a.caseTotal > 0.0 && !(a.accepted && a.casePoints >= a.caseTotal)
    ensures Share(a, full) >= 0.0 && PointsOf(a, full, true) == Min(full, RoundHalfEven(Share(a, full)))
  {
    hide RoundHalfEven;
    var share := a.casePoints / a.caseTotal;
    assert share >= 0.0;
  }

  /** A verdict with all the test cases. */
  predicate Solves(a: Attempt) {
    a.status.D? && a.caseTotal > 0.0 && a.accepted && a.casePoints >= a.caseTotal
  }

  lemma WholeOrNothing(a: Attempt, full: nat, partial: bool)
    ensures Solves(a) ==> PointsOf(a, full, partial) == full
    ensures !a.status.D? || a.caseTotal <= 0.0 || (!partial && !Solves(a)) ==> PointsOf(a, full, partial) == 0
  {
    hide RoundHalfEven;
  }

  /** The part of the test cases it got, of the full points. */
  function Share(a: Attempt, full: nat): real
    requires a.caseTotal > 0.0
  {
    a.casePoints / a.caseTotal * full as real
  }

  /**
   Full points for a whole solve, or a share as large; with partial points the thousandth nearest to the share of the
   test cases; nothing otherwise.
   */
  lemma PointsMean(a: Attempt, full: nat, partial: bool)
    ensures Solves(a) ==> PointsOf(a, full, partial) == full
    ensures !a.status.D? || a.caseTotal <= 0.0 || (!partial && !Solves(a)) ==> PointsOf(a, full, partial) == 0
    ensures a.status.D? && a.caseTotal > 0.0 && partial && !Solves(a) ==>
              if Share(a, full) >= full as real then PointsOf(a, full, partial) == full
              else Nearest(PointsOf(a, full, partial), Share(a, full))
  {
    hide PointsOf, Share, RoundHalfEven, Nearest;
    WholeOrNothing(a, full, partial);
    if a.status.D? && a.caseTotal > 0.0 && partial && !Solves(a) {
      PartialIs(a, full);
      NearestUpTo(Share(a, full), full);
    }
  }

  ghost function UsedOn(at: seq<Attempt>, p: nat): set<nat> {
    set k: nat | k < |at| && at[k].problem == p && !at[k].status.CE? && !at[k].status.IE?
  }

  lemma {:induction false} UsedAre(at: seq<Attempt>, p: nat)
    ensures Used(at, p) == |UsedOn(at, p)|
  {
    if at == [] {
      assert UsedOn(at, p) == {};
    } else {
      var n := |at| - 1;
      var init, last := at[..n], at[n];
      assert at == init + [last];
      UsedAre(init, p);
      CountsWithNext(init, last, p);
      assert UsedOn(at, p) == UsedOn(init, p) + if last.problem == p && last.Counts() then {n} else {};
    }
  }

  /** Another attempt is allowed exactly with no limit or with fewer than it made that did compile and were judged. */
  lemma TriesMean(at: seq<Attempt>, p: nat, maxAttempts: nat)
    ensures CanStillTry(at, p, maxAttempts) <==> maxAttempts == 0 || |UsedOn(at, p)| < maxAttempts
  {
    UsedAre(at, p);
  }
}
