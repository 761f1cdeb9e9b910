/**
 What the organizer's final call does with pending verdicts.  scoring.py says they count as failed; the code leaves
 them out altogether, so they cost no penalty.  Here is exactly when the two differ.
 */
module ArenaPending {
  import opened Common
  import opened Scoring
  import opened ScoringOrder
  import opened ScoringRows
  import opened ScoringLoops
  import opened ArenaFinal

  /** Attempt `i` is where the player first reached their best on problem `p`, over the judged submissions. */
  predicate Peak(at: seq<Attempt>, i: nat, p: nat, full: nat, partial: bool) {
    i < |at| && at[i].problem == p && PointsOf(at[i], full, partial) > 0 &&
    (forall k :: 0 <= k < i && at[k].problem == p ==>
       PointsOf(at[k], full, partial) < PointsOf(at[i], full, partial)) &&
    (forall k :: 0 <= k < |at| && at[k].problem == p ==>
       PointsOf(at[k], full, partial) <= PointsOf(at[i], full, partial))
  }

  /** A verdict on problem `p` is missing from before the peak. */
  predicate MissingInFront(at: seq<Attempt>, p: nat, full: nat, partial: bool) {
    exists k, i :: 0 <= k < i < |at| && at[k].Pending() && at[k].problem == p && Peak(at, i, p, full, partial)
  }

  predicate PendingInFront(at: seq<Attempt>, problems: seq<nat>, partial: bool) {
    exists p :: 0 <= p < |problems| && MissingInFront(at, p, problems[p], partial)
  }

  lemma {:induction false} FailedInLine(at: seq<Attempt>, p: nat, full: nat, partial: bool)
    ensures Failed(Line(at, p, full, partial, false))
            == Failed(Line(Judged(at), p, full, partial, false)) + PendingOn(at, p)
  {
    if at != [] {
      FailedInLine(at[1..], p, full, partial);
      LineFront(at, p, full, partial, false);
      var rest := Line(at[1..], p, full, partial, false);
      FailedOfConcat(if at[0].problem == p then [Imagined(at[0], full, partial, false)] else [], rest);
      if !at[0].Pending() {
        var judged := [at[0]] + Judged(at[1..]);
        assert judged[1..] == Judged(at[1..]);
        LineFront(judged, p, full, partial, false);
        FailedOfConcat(if at[0].problem == p then [Imagined(at[0], full, partial, false)] else [],
                       Line(Judged(at[1..]), p, full, partial, false));
      } else {
        assert Judged(at) == Judged(at[1..]);
      }
    }
  }

  lemma LineBelow(at: seq<Attempt>, p: nat, full: nat, partial: bool, bound: nat)
    requires forall a :: a in at && a.problem == p ==> PointsOf(a, full, partial) <= bound
    ensures forall k :: 0 <= k < |Line(at, p, full, partial, false)| ==>
              Line(at, p, full, partial, false)[k].points <= bound
  {
    LineComesFrom(at, p, full, partial, false);
    forall k | 0 <= k < |Line(at, p, full, partial, false)|
      ensures Line(at, p, full, partial, false)[k].points <= bound
    {
      assert Line(at, p, full, partial, false)[k] in Line(at, p, full, partial, false);
    }
  }

  /** The row at a peak, from the attempts around it. */
  lemma RowAtPeak(x: seq<Attempt>, a: Attempt, y: seq<Attempt>, p: nat, full: nat, partial: bool)
    requires a.problem == p && PointsOf(a, full, partial) > 0
    requires forall b :: b in x && b.problem == p ==> PointsOf(b, full, partial) < PointsOf(a, full, partial)
    requires forall b :: b in y && b.problem == p ==> PointsOf(b, full, partial) <= PointsOf(a, full, partial)
    ensures var row, points := WorstRow(x + [a] + y, p, full, partial), PointsOf(a, full, partial);
            row == Row(points, points >= full, 0, 0, Failed(Line(x, p, full, partial, false)), Some(a.date),
                       if points >= full then Some(a.date) else None)
  {
    LineAround(x, a, y, p, full, partial, false);
    LineBelow(x, p, full, partial, PointsOf(a, full, partial) - 1);
    LineBelow(y, p, full, partial, PointsOf(a, full, partial));
    RowHere(Line(x, p, full, partial, false), Imagined(a, full, partial, false), Line(y, p, full, partial, false),
            full);
  }

  lemma PeakSplit(at: seq<Attempt>, i: nat, p: nat, full: nat, partial: bool)
    requires Peak(at, i, p, full, partial)
    ensures WorstRow(at, p, full, partial)
            == WorstRow(Judged(at), p, full, partial).(penalized :=
                 WorstRow(Judged(at), p, full, partial).penalized + PendingOn(at[..i], p))
  {
    var x, y := at[..i], at[i + 1..];
    assert at == x + [at[i]] + y;
    JudgedOfConcat(x + [at[i]], y);
    JudgedOfConcat(x, [at[i]]);
    assert Judged([at[i]]) == [at[i]] by { assert Judged([]) == []; }
    forall b | b in x && b.problem == p ensures PointsOf(b, full, partial) < PointsOf(at[i], full, partial) {
      var k :| 0 <= k < i && at[k] == b;
    }
    forall b | b in y && b.problem == p ensures PointsOf(b, full, partial) <= PointsOf(at[i], full, partial) {
      var k :| i < k < |at| && at[k] == b;
    }
    RowAtPeak(x, at[i], y, p, full, partial);
    JudgedAreAmong(x);
    JudgedAreAmong(y);
    RowAtPeak(Judged(x), at[i], Judged(y), p, full, partial);
    FailedInLine(x, p, full, partial);
  }

  lemma NoPeak(at: seq<Attempt>, p: nat, full: nat, partial: bool)
    requires forall a :: a in at && a.problem == p ==> PointsOf(a, full, partial) == 0
    ensures WorstRow(at, p, full, partial) == EMPTY_ROW == WorstRow(Judged(at), p, full, partial)
  {
    JudgedAreAmong(at);
    LineBelow(at, p, full, partial, 0);
    LineBelow(Judged(at), p, full, partial, 0);
    BestIsReached(Line(at, p, full, partial, false));
    BestIsReached(Line(Judged(at), p, full, partial, false));
  }

  lemma {:induction false} SomePeak(at: seq<Attempt>, p: nat, full: nat, partial: bool) returns (i: nat)
    requires exists a :: a in at && a.problem == p && PointsOf(a, full, partial) > 0
    ensures Peak(at, i, p, full, partial)
  {
    var n := |at| - 1;
    var init := at[..n];
    if exists a :: a in init && a.problem == p && PointsOf(a, full, partial) > 0 {
      i := SomePeak(init, p, full, partial);
      assert forall k :: 0 <= k < n ==> at[k] == init[k];
      if at[n].problem == p && PointsOf(at[n], full, partial) > PointsOf(at[i], full, partial) {
        i := n;
      }
    } else {
      i := n;
      assert forall k :: 0 <= k < n ==> at[k] in init;
    }
  }

  lemma {:induction false} PendingOnPositive(at: seq<Attempt>, p: nat)
    ensures PendingOn(at, p) > 0 <==> exists k :: 0 <= k < |at| && at[k].Pending() && at[k].problem == p
  {
    if at != [] {
      PendingOnPositive(at[1..], p);
      if k :| 0 <= k < |at[1..]| && at[1..][k].Pending() && at[1..][k].problem == p {
        assert at[k + 1] == at[1..][k];
      }
      if k :| 0 <= k < |at| && at[k].Pending() && at[k].problem == p && k > 0 {
        assert at[1..][k - 1] == at[k];
      }
    }
  }

  lemma OnePeak(at: seq<Attempt>, i: nat, j: nat, p: nat, full: nat, partial: bool)
    requires Peak(at, i, p, full, partial) && Peak(at, j, p, full, partial)
    ensures i == j
  {}

  lemma MissingIsCounted(at: seq<Attempt>, i: nat, p: nat, full: nat, partial: bool)
    requires Peak(at, i, p, full, partial)
    ensures MissingInFront(at, p, full, partial) <==> PendingOn(at[..i], p) > 0
  {
    PendingOnPositive(at[..i], p);
    if MissingInFront(at, p, full, partial) {
      var k, j :| 0 <= k < j < |at| && at[k].Pending() && at[k].problem == p && Peak(at, j, p, full, partial);
      OnePeak(at, i, j, p, full, partial);
      assert at[..i][k] == at[k];
    }
    if PendingOn(at[..i], p) > 0 {
      var k :| 0 <= k < |at[..i]| && at[..i][k].Pending() && at[..i][k].problem == p;
      assert at[k] == at[..i][k];
    }
  }

  /** The row of a problem changes exactly when a verdict in front of its best is missing. */
  lemma RowsDiffer(at: seq<Attempt>, p: nat, full: nat, partial: bool)
    ensures var row, judged := WorstRow(at, p, full, partial), WorstRow(Judged(at), p, full, partial);
            row.best == judged.best && row.bestAt == judged.bestAt && row.penalized >= judged.penalized &&
            (row.penalized > judged.penalized <==> MissingInFront(at, p, full, partial))
  {
    if exists a :: a in at && a.problem == p && PointsOf(a, full, partial) > 0 {
      var i := SomePeak(at, p, full, partial);
      PeakSplit(at, i, p, full, partial);
      MissingIsCounted(at, i, p, full, partial);
      hide WorstRow, MissingInFront, Peak, PendingOn;
    } else {
      NoPeak(at, p, full, partial);
      forall i | 0 <= i < |at| ensures !Peak(at, i, p, full, partial) {
        assert at[i] in at;
      }
    }
  }

  lemma {:induction false} TotalsDiffer(rs: seq<Row>, ss: seq<Row>)
    requires |rs| == |ss|
    requires forall p :: 0 <= p < |rs| ==>
               rs[p].best == ss[p].best && rs[p].bestAt == ss[p].bestAt && rs[p].penalized >= ss[p].penalized
    ensures Total(rs) == Total(ss) && Reach(rs) == Reach(ss) && TotalPenalized(rs) >= TotalPenalized(ss)
    ensures TotalPenalized(rs) > TotalPenalized(ss) <==> exists p :: 0 <= p < |rs| && rs[p].penalized > ss[p].penalized
  {
    if rs != [] {
      var n := |rs| - 1;
      TotalsDiffer(rs[..n], ss[..n]);
      if p :| 0 <= p < |rs[..n]| && rs[..n][p].penalized > ss[..n][p].penalized {
        assert rs[p].penalized > ss[p].penalized;
      }
      if p :| 0 <= p < |rs| && rs[p].penalized > ss[p].penalized && p < n {
        assert rs[..n][p].penalized > ss[..n][p].penalized;
      }
    }
  }

  lemma PenaltyMatters(penalty: nat, m: nat, n: nat)
    requires m <= n
    ensures penalty * MINUTE * m == penalty * MINUTE * n <==> penalty == 0 || m == n
  {
    if penalty > 0 && m < n {
      assert penalty * MINUTE * n - penalty * MINUTE * m == (penalty * MINUTE) * (n - m);
      assert (penalty * MINUTE) * (n - m) > 0;
    }
  }

  /**
   Leaving pending verdicts out gives the standing of counting them as failed exactly when nothing is charged for a
   failed attempt, or none of them comes before the best submission on its problem; the score never differs.
   */
  lemma LeftOutIffNothingInFront(at: seq<Attempt>, problems: seq<nat>, partial: bool, penalty: nat, startedAt: int)
    requires Ordered(at)
    ensures var failed := WorstCase(at, problems, partial, penalty, startedAt);
            var leftOut := Confirmed(at, problems, partial, penalty, startedAt);
            failed.score == leftOut.score && failed.reach == leftOut.reach &&
            (failed.effective == leftOut.effective <==>
             penalty == 0 || !PendingInFront(at, problems, partial))
  {
    var failed := WorstCase(at, problems, partial, penalty, startedAt);
    var leftOut := Confirmed(at, problems, partial, penalty, startedAt);
    var rs, ss := failed.problems, leftOut.problems;
    RowsOfBoth(at, problems, partial, penalty, startedAt);
    InFrontInRows(at, problems, partial, rs, ss);
    hide *;
    StandingsDiffer(rs, ss, penalty, startedAt);
  }

  lemma StandingsDiffer(rs: seq<Row>, ss: seq<Row>, penalty: nat, startedAt: int)
    requires |rs| == |ss|
    requires forall p :: 0 <= p < |rs| ==>
               rs[p].best == ss[p].best && rs[p].bestAt == ss[p].bestAt && rs[p].penalized >= ss[p].penalized
               && SoundRow(rs[p])
    ensures var failed, leftOut := FromRows(rs, penalty, startedAt), FromRows(ss, penalty, startedAt);
            failed.score == leftOut.score && failed.reach == leftOut.reach &&
            (failed.effective == leftOut.effective <==>
             penalty == 0 || !exists p :: 0 <= p < |rs| && rs[p].penalized > ss[p].penalized)
  {
    TotalsDiffer(rs, ss);
    PenaltyMatters(penalty, TotalPenalized(ss), TotalPenalized(rs));
    if Reach(rs).None? { NoScoreNoPenalty(rs); }
  }

  lemma RowsOfBoth(at: seq<Attempt>, problems: seq<nat>, partial: bool, penalty: nat, startedAt: int)
    requires Ordered(at)
    ensures var failed := WorstCase(at, problems, partial, penalty, startedAt);
            var leftOut := Confirmed(at, problems, partial, penalty, startedAt);
            failed == FromRows(failed.problems, penalty, startedAt) &&
            leftOut == FromRows(leftOut.problems, penalty, startedAt)
            && |failed.problems| == |leftOut.problems| == |problems|
            && forall p :: 0 <= p < |problems| ==>
                 failed.problems[p] == WorstRow(at, p, problems[p], partial)
                 && leftOut.problems[p] == WorstRow(Judged(at), p, problems[p], partial)
                 && SoundRow(leftOut.problems[p])
  {
    var failed := WorstCase(at, problems, partial, penalty, startedAt);
    var leftOut := Confirmed(at, problems, partial, penalty, startedAt);
    JudgedOrdered(at);
    JudgedCasesAreConfirmed(at, problems, partial, penalty, startedAt, 0);
    forall p | 0 <= p < |problems|
      ensures failed.problems[p] == WorstRow(at, p, problems[p], partial)
      ensures leftOut.problems[p] == WorstRow(Judged(at), p, problems[p], partial) && SoundRow(leftOut.problems[p])
    {
      WorstOfRows(at, problems, partial, penalty, startedAt, p);
      WorstOfRows(Judged(at), problems, partial, penalty, startedAt, p);
    }
  }

  lemma InFrontInRows(at: seq<Attempt>, problems: seq<nat>, partial: bool, rs: seq<Row>, ss: seq<Row>)
    requires |rs| == |ss| == |problems|
    requires forall p :: 0 <= p < |problems| ==>
               rs[p] == WorstRow(at, p, problems[p], partial) && ss[p] == WorstRow(Judged(at), p, problems[p], partial)
    ensures forall p :: 0 <= p < |problems| ==>
              rs[p].best == ss[p].best && rs[p].bestAt == ss[p].bestAt && rs[p].penalized >= ss[p].penalized
              && SoundRow(rs[p])
    ensures PendingInFront(at, problems, partial) <==> exists p :: 0 <= p < |rs| && rs[p].penalized > ss[p].penalized
  {
    forall p | 0 <= p < |problems|
      ensures rs[p].best == ss[p].best && rs[p].bestAt == ss[p].bestAt && rs[p].penalized >= ss[p].penalized
      ensures SoundRow(rs[p])
      ensures rs[p].penalized > ss[p].penalized <==> MissingInFront(at, p, problems[p], partial)
    {
      RowsDiffer(at, p, problems[p], partial);
      RowsAreSound(Line(at, p, problems[p], partial, false), problems[p]);
    }
  }

  lemma {:induction false} NoScoreNoPenalty(rows: seq<Row>)
    requires Reach(rows).None? && forall p :: 0 <= p < |rows| ==> SoundRow(rows[p])
    ensures TotalPenalized(rows) == 0
  {
    if rows != [] { NoScoreNoPenalty(rows[..|rows| - 1]); }
  }

  // -------------------------------------------------------------------------- a game where the winner depends on it

  const SECOND: int := 1_000_000

  function Solved(id: nat, at: int): Attempt {
    Attempt(id, at, D, true, 1.0, 1.0, 0)
  }

  lemma OneProblem(at: seq<Attempt>, x: seq<Attempt>, a: Attempt)
    requires at == x + [a] && Ordered(at) && a.problem == 0 && PointsOf(a, 1000, false) == 1000
    requires forall b :: b in x ==> b.problem == 0 && PointsOf(b, 1000, false) == 0
    ensures var s := WorstCase(at, [1000], false, 1, 0);
            s.score == 1000 && s.effective == Some(a.date + MINUTE * Failed(Line(x, 0, 1000, false, false)))
  {
    assert at == x + [a] + [];
    RowAtPeak(x, a, [], 0, 1000, false);
    WorstOfRows(at, [1000], false, 1, 0, 0);
    var rows := WorstCase(at, [1000], false, 1, 0).problems;
    assert rows[..0] == [];
    assert Total(rows[..0]) == 0 && TotalPenalized(rows[..0]) == 0 && Reach(rows[..0]) == None;
  }

  lemma FailedOnce(f: Attempt)
    requires f.problem == 0 && f.status.AB?
    ensures Failed(Line([f], 0, 1000, false, false)) == 1
  {
    LineFront([f], 0, 1000, false, false);
    assert [f][1..] == [];
    assert Line([f], 0, 1000, false, false) == [Imagined(f, 1000, false, false)];
    assert Line([f], 0, 1000, false, false)[1..] == [];
  }

  lemma AllJudged(at: seq<Attempt>)
    requires !AnyPending(at)
    ensures Judged(at) == at
  {
    if at != [] {
      assert !at[0].Pending();
      assert forall i :: 0 <= i < |at[1..]| ==> at[1..][i] == at[i + 1];
      AllJudged(at[1..]);
    }
  }

  /** Confirmed standing of a single full solve, after failed attempts or none. */
  lemma OneSolve(x: seq<Attempt>, a: Attempt)
    requires Ordered(x + [a]) && !AnyPending(x + [a]) && a.problem == 0 && PointsOf(a, 1000, false) == 1000
    requires forall b :: b in x ==> b.problem == 0 && PointsOf(b, 1000, false) == 0
    ensures var s := Confirmed(x + [a], [1000], false, 1, 0);
            s.score == 1000 && s.effective == Some(a.date + MINUTE * Failed(Line(x, 0, 1000, false, false)))
  {
    AllJudged(x + [a]);
    JudgedCasesAreConfirmed(x + [a], [1000], false, 1, 0, 0);
    OneProblem(x + [a], x, a);
  }

  lemma PendingLeftOut(x: Attempt, y: Attempt)
    requires x.Pending() && !y.Pending()
    ensures Confirmed([x, y], [1000], false, 1, 0) == Confirmed([y], [1000], false, 1, 0)
  {
    assert [x, y][1..] == [y];
    var judged := JudgedEvents([y], [1000], false);
    assert JudgedEvents([x, y], [1000], false) == [] + judged == judged;
  }

  /** With the same score, whoever reached it first, penalties included, gets the final call. */
  lemma EarlierWins(a: seq<Attempt>, b: seq<Attempt>, slot: Slot, endsAt: int)
    requires 0 <= endsAt
    requires var x, y := Confirmed(a, [1000], false, 1, 0), Confirmed(b, [1000], false, 1, 0);
             x.score == 1000 && y.score == 1000 && x.effective.Some? && y.effective.Some? &&
             (if slot.A? then x.effective.value < y.effective.value else y.effective.value < x.effective.value)
    ensures DecideIgnoringPending(a, b, [1000], Rules(false, 1, 0), 0, endsAt, endsAt) == Finish(slot, Earlier)
  {
    hide Confirmed, DecideIgnoringPending;
    FinalCallByConfirmed(a, b, [1000], Rules(false, 1, 0), 0, endsAt, endsAt);
  }

  const STUCK := Attempt(1, 10 * SECOND, QU, false, 0.0, 0.0, 0)

  lemma StuckLeftOut()
    ensures DecideIgnoringPending([STUCK, Solved(2, 20 * SECOND)], [Solved(3, 30 * SECOND)], [1000], Rules(false, 1, 0),
                                  0, 900 * SECOND, 900 * SECOND) == Finish(A, Earlier)
  {
    var y, z := Solved(2, 20 * SECOND), Solved(3, 30 * SECOND);
    PendingLeftOut(STUCK, y);
    assert [] + [y] == [y] && [] + [z] == [z];
    OneSolve([], y);
    OneSolve([], z);
    assert Line([], 0, 1000, false, false) == [] && Failed([]) == 0;
    hide Confirmed, Failed, Line, DecideIgnoringPending;
    EarlierWins([STUCK, y], [z], A, 900 * SECOND);
  }

  lemma StuckFailed()
    ensures DecideIgnoringPending([STUCK.(status := AB), Solved(2, 20 * SECOND)], [Solved(3, 30 * SECOND)], [1000],
                                  Rules(false, 1, 0), 0, 900 * SECOND, 900 * SECOND) == Finish(B, Earlier)
  {
    var f, y, z := STUCK.(status := AB), Solved(2, 20 * SECOND), Solved(3, 30 * SECOND);
    assert [f] + [y] == [f, y] && [] + [z] == [z];
    OneSolve([f], y);
    OneSolve([], z);
    FailedOnce(f);
    assert Line([], 0, 1000, false, false) == [] && Failed([]) == 0;
    hide Confirmed, Failed, Line, DecideIgnoringPending;
    EarlierWins([f, y], [z], B, 900 * SECOND);
  }

  /**
   One minute for a failed attempt.  Player a solves the problem at second 20 after a submission at second 10 that is
   still pending; player b solves it at second 30.  The final call gives the game to a; had the pending submission
   counted as failed, b would have won.
   */
  lemma FinalCallDiffersFromFailing()
    ensures var b, rules, end := [Solved(3, 30 * SECOND)], Rules(false, 1, 0), 900 * SECOND;
            var y := Solved(2, 20 * SECOND);
            DecideIgnoringPending([STUCK, y], b, [1000], rules, 0, end, end) == Finish(A, Earlier) &&
            DecideIgnoringPending([STUCK.(status := AB), y], b, [1000], rules, 0, end, end) == Finish(B, Earlier)
  {
    hide DecideIgnoringPending;
    StuckLeftOut();
    StuckFailed();
  }
}
