/** The last word on a game: who wins with pending verdicts set aside, what the reasons mean, and both sides alike. */
module ArenaFinal {
  import opened Common
  import opened Scoring
  import opened ScoringOrder
  import opened ScoringRows
  import opened ArenaCalls

  // ------------------------------------------------------------------------------ without the pending verdicts

  lemma {:induction false} JudgedOnly(at: seq<Attempt>, problems: seq<nat>, partial: bool)
    ensures !AnyPending(Judged(at)) &&
            JudgedEvents(Judged(at), problems, partial) == JudgedEvents(at, problems, partial)
  {
    if at != [] {
      JudgedOnly(at[1..], problems, partial);
      if !at[0].Pending() {
        assert ([at[0]] + Judged(at[1..]))[1..] == Judged(at[1..]);
      } else {
        assert Judged(at) == Judged(at[1..]);
      }
    }
  }

  lemma JudgedCasesAreConfirmed(at: seq<Attempt>, problems: seq<nat>, partial: bool, penalty: nat, startedAt: int,
                                m: nat)
    ensures WorstCase(Judged(at), problems, partial, penalty, startedAt)
            == Confirmed(at, problems, partial, penalty, startedAt)
    ensures BestCase(Judged(at), problems, partial, penalty, startedAt, None, m)
            == Confirmed(at, problems, partial, penalty, startedAt)
  {
    JudgedOnly(at, problems, partial);
    NothingPending(Judged(at), problems, false);
    NothingPending(Judged(at), problems, true);
    var events := JudgedEvents(at, problems, partial);
    assert events + [] == events && events + [] + [] == events;
  }

  /** The final call always decides, and by the strict order of the confirmed standings. */
  lemma FinalCallByConfirmed(a: seq<Attempt>, b: seq<Attempt>, problems: seq<nat>, rules: Rules,
                             startedAt: int, endsAt: int, now: int)
    requires startedAt <= endsAt
    ensures var first := Confirmed(a, problems, rules.partial, rules.penalty, startedAt);
            var second := Confirmed(b, problems, rules.partial, rules.penalty, startedAt);
            DecideIgnoringPending(a, b, problems, rules, startedAt, endsAt, now)
            == if Beats(first, second) then Finish(A, if first.score > second.score then MorePoints else Earlier)
               else if Beats(second, first) then Finish(B, if second.score > first.score then MorePoints else Earlier)
               else Tie
  {
    JudgedCasesAreConfirmed(a, problems, rules.partial, rules.penalty, startedAt, rules.maxAttempts);
    JudgedCasesAreConfirmed(b, problems, rules.partial, rules.penalty, startedAt, rules.maxAttempts);
    JudgedOnly(a, problems, rules.partial);
    JudgedOnly(b, problems, rules.partial);
    hide WorstCase, BestCase, Confirmed, Beats, Sum, Judged, AnyPending, JudgedEvents;
  }

  // ---------------------------------------------------------- the final call never contradicts an earlier call

  /** An event worth nothing that is no failed attempt either might as well not be there. */
  lemma NeutralEvent(x: seq<Event>, n: Event, y: seq<Event>, full: nat)
    requires n.points == 0 && !n.penalizable
    ensures RowOf(x + [n] + y, full) == RowOf(x + y, full)
  {
    BestAround(x, n, y);
    BestOfConcat(x, y);
    BestIsReached(x);
    BestIsReached(y);
    RowsAreSound(x + y, full);
    RowsAreSound(x + [n] + y, full);
    hide Best, Failed;
    if Best(x + y) > 0 {
      hide RowOf;
      if Best(x) == Best(x + y) {
        Associative(x, [n], y);
        FailingAfter(x, y, [n] + y, full, First(x, Best(x)));
      } else {
        NeutralBefore(x, n, y, full, First(y, Best(y)));
      }
    }
  }

  lemma NeutralBefore(x: seq<Event>, n: Event, y: seq<Event>, full: nat, i: nat)
    requires n.points == 0 && !n.penalizable && i < |y| && y[i].points > 0
    requires forall k :: 0 <= k < |x| ==> x[k].points < y[i].points
    requires forall k :: 0 <= k < i ==> y[k].points < y[i].points
    requires forall k :: 0 <= k < |y| ==> y[k].points <= y[i].points
    ensures RowOf(x + [n] + y, full) == RowOf(x + y, full)
  {
    FailedAround(x, n, y[..i]);
    FailedOfConcat(x, y[..i]);
    hide RowOf, Failed;
    RowBehind(x + [n], y, full, i);
    RowBehind(x, y, full, i);
  }

  lemma {:induction false} JudgedOfConcat(x: seq<Attempt>, y: seq<Attempt>)
    ensures Judged(x + y) == Judged(x) + Judged(y)
  {
    if x == [] {
      assert x + y == y;
    } else {
      Uncons(x, y);
      JudgedOfConcat(x[1..], y);
      assert Judged(x + y) == (if x[0].Pending() then [] else [x[0]]) + Judged(x[1..] + y);
    }
  }

  lemma {:induction false} JudgedAreAmong(at: seq<Attempt>)
    ensures forall a :: a in Judged(at) ==> a in at
  {
    if at != [] {
      JudgedAreAmong(at[1..]);
      assert at == [at[0]] + at[1..];
    }
  }

  lemma {:induction false} JudgedOrdered(at: seq<Attempt>)
    requires Ordered(at)
    ensures Ordered(Judged(at))
  {
    if at != [] {
      RestPrecedes(at, []);
      JudgedOrdered(at[1..]);
      JudgedAreAmong(at[1..]);
      var rest := Judged(at[1..]);
      forall k | 0 <= k < |rest|
        ensures at[0].date < rest[k].date || (at[0].date == rest[k].date && at[0].id < rest[k].id)
      {
        assert rest[k] in at[1..];
        var j :| 0 <= j < |at[1..]| && at[1..][j] == rest[k];
        assert at[j + 1] == rest[k];
      }
    }
  }

  function AsCompileError(a: Attempt): Attempt {
    a.(status := CE)
  }

  lemma CompileErrorKeepsRow(at: seq<Attempt>, k: nat, p: nat, full: nat, partial: bool)
    requires k < |at| && at[k].Pending()
    ensures WorstRow(Judged(at[k := AsCompileError(at[k])]), p, full, partial) == WorstRow(Judged(at), p, full, partial)
  {
    var ce := AsCompileError(at[k]);
    var x, y := at[..k], at[k + 1..];
    assert at == x + [at[k]] + y && at[k := ce] == x + [ce] + y;
    JudgedOfConcat(x + [at[k]], y); JudgedOfConcat(x, [at[k]]);
    JudgedOfConcat(x + [ce], y); JudgedOfConcat(x, [ce]);
    assert Judged([at[k]]) == [] && Judged([ce]) == [ce] by { assert Judged([]) == []; }
    assert Judged(at) == Judged(x) + Judged(y);
    LineAround(Judged(x), ce, Judged(y), p, full, partial, false);
    LineOfConcat(Judged(x), Judged(y), p, full, partial, false);
    var u, v := Line(Judged(x), p, full, partial, false), Line(Judged(y), p, full, partial, false);
    if ce.problem == p {
      NeutralEvent(u, Imagined(ce, full, partial, false), v, full);
    } else {
      assert u + [] + v == u + v;
    }
  }

  /** Setting a pending submission aside is the same as a compile error on it. */
  lemma CompileErrorKeepsConfirmed(game: Game, at: seq<Attempt>, now: int, k: nat)
    requires Made(game, at, now) && k < |at| && at[k].Pending()
    ensures var at' := at[k := AsCompileError(at[k])];
            Confirmed(at', game.problems, game.rules.partial, game.rules.penalty, game.startedAt)
            == Confirmed(at, game.problems, game.rules.partial, game.rules.penalty, game.startedAt)
  {
    var at' := at[k := AsCompileError(at[k])];
    JudgedFits(game, at, now, k, AsCompileError(at[k]));
    JudgedOrdered(at);
    JudgedOrdered(at');
    JudgedCasesAreConfirmed(at, game.problems, game.rules.partial, game.rules.penalty, game.startedAt, 0);
    JudgedCasesAreConfirmed(at', game.problems, game.rules.partial, game.rules.penalty, game.startedAt, 0);
    var s := WorstCase(Judged(at), game.problems, game.rules.partial, game.rules.penalty, game.startedAt);
    var s' := WorstCase(Judged(at'), game.problems, game.rules.partial, game.rules.penalty, game.startedAt);
    forall p | 0 <= p < |game.problems| ensures s.problems[p] == s'.problems[p] {
      CompileErrorKeepsRow(at, k, p, game.problems[p], game.rules.partial);
      WorstOfRows(Judged(at), game.problems, game.rules.partial, game.rules.penalty, game.startedAt, p);
      WorstOfRows(Judged(at'), game.problems, game.rules.partial, game.rules.penalty, game.startedAt, p);
    }
    assert s.problems == s'.problems;
  }

  lemma OneCompileError(game: Game, h: History) returns (m: Move)
    requires Fits(game, h) && (AnyPending(h.a) || AnyPending(h.b))
    ensures Legal(game, h, m) && Fits(game, Apply(game, h, m))
    ensures forall s: Slot :: ConfirmedOf(game, Apply(game, h, m), s) == ConfirmedOf(game, h, s)
    ensures var h' := Apply(game, h, m);
            |PendingOnes(h'.a)| + |PendingOnes(h'.b)| < |PendingOnes(h.a)| + |PendingOnes(h.b)|
  {
    hide Confirmed, Ordered, PendingOnes;
    var slot := if AnyPending(h.a) then A else B;
    var k :| 0 <= k < |h.Of(slot)| && h.Of(slot)[k].Pending();
    m := Judge(slot, k, AsCompileError(h.Of(slot)[k]));
    MoveFits(game, h, m);
    OneLessPending(h.Of(slot), k, m.news);
    CompileErrorKeepsConfirmed(game, h.Of(slot), h.now, k);
    forall s: Slot ensures ConfirmedOf(game, Apply(game, h, m), s) == ConfirmedOf(game, h, s) {
      assert s == slot || Apply(game, h, m).Of(s) == h.Of(s);
    }
  }

  /** A way the game can end: every pending submission fails to compile and nobody submits any more. */
  lemma {:induction false} EndWithoutVerdicts(game: Game, h: History) returns (moves: seq<Move>)
    requires Fits(game, h)
    ensures LegalRun(game, h, moves) && Over(game, Run(game, h, moves))
    ensures forall s: Slot :: ConfirmedOf(game, Run(game, h, moves), s) == ConfirmedOf(game, h, s)
    decreases |PendingOnes(h.a)| + |PendingOnes(h.b)|
  {
    if AnyPending(h.a) || AnyPending(h.b) {
      var m := OneCompileError(game, h);
      var rest := EndWithoutVerdicts(game, Apply(game, h, m));
      moves := [m] + rest;
      assert moves[1..] == rest;
    } else {
      var m := Wait(Max(h.now, game.endsAt));
      moves := [m];
      assert moves[1..] == [];
      assert LegalRun(game, Apply(game, h, m), []);
    }
  }

  /** What a poll called, the final call confirms. */
  lemma FinalCallAgrees(game: Game, h: History, slot: Slot, now: int)
    requires Fits(game, h) && Called(game, h, slot)
    ensures var final := DecideIgnoringPending(h.a, h.b, game.problems, game.rules, game.startedAt, game.endsAt, now);
            final.Finish? && final.winner == slot
  {
    var moves := EndWithoutVerdicts(game, h);
    CalledIffCertain(game, h, slot);
    assert Wins(game, Run(game, h, moves), slot);
    FinalCallByConfirmed(h.a, h.b, game.problems, game.rules, game.startedAt, game.endsAt, now);
    hide Confirmed, DecideIgnoringPending, LegalRun, Run, Over, Called;
  }

  // ------------------------------------------------------------------------------------------ both sides alike

  function Mirror(d: Decision): Decision {
    if d.Finish? then Finish(d.winner.Other(), d.reason) else d
  }

  /** Swapping the players swaps the answer. */
  lemma SwappingPlayers(game: Game, h: History)
    requires Fits(game, h)
    ensures DecideNow(game, h.(a := h.b, b := h.a)) == Mirror(DecideNow(game, h))
  {
    if game.startedAt <= h.now { SwappingStarted(game, h); }
  }

  lemma SwappingStarted(game: Game, h: History)
    requires Fits(game, h) && game.startedAt <= h.now
    ensures DecideNow(game, h.(a := h.b, b := h.a)) == Mirror(DecideNow(game, h))
  {
    var h' := h.(a := h.b, b := h.a);
    NotBothCertain(game, h);
    DecideNowIs(game, h);
    DecideNowIs(game, h');
    assert Worst(game, h', A) == Worst(game, h, B) && Worst(game, h', B) == Worst(game, h, A);
    assert BestOf(game, h', A) == BestOf(game, h, B) && BestOf(game, h', B) == BestOf(game, h, A);
    assert Open(game, h') == Open(game, h);
    SwappingCases(Worst(game, h, A), Worst(game, h, B), BestOf(game, h, A), BestOf(game, h, B),
                  Open(game, h), AnyPending(h.a) || AnyPending(h.b), Sum(game.problems));
    hide *;
  }

  lemma SwappingCases(worstA: Standing, worstB: Standing, bestA: Standing, bestB: Standing,
                      open: bool, pending: bool, total: nat)
    requires !(Beats(worstA, bestB) && Beats(worstB, bestA))
    ensures DecideFrom(worstB, worstA, bestB, bestA, open, pending, total)
            == Mirror(DecideFrom(worstA, worstB, bestA, bestB, open, pending, total))
  {}

  lemma SwappingPlayersInTheEnd(game: Game, h: History, now: int)
    requires game.startedAt <= game.endsAt
    ensures DecideIgnoringPending(h.b, h.a, game.problems, game.rules, game.startedAt, game.endsAt, now)
            == Mirror(DecideIgnoringPending(h.a, h.b, game.problems, game.rules, game.startedAt, game.endsAt, now))
  {
    FinalCallByConfirmed(h.a, h.b, game.problems, game.rules, game.startedAt, game.endsAt, now);
    FinalCallByConfirmed(h.b, h.a, game.problems, game.rules, game.startedAt, game.endsAt, now);
    hide DecideIgnoringPending, Confirmed;
  }

  // ------------------------------------------------------------------------------------- what the reasons mean

  predicate SolvedInFull(at: seq<Attempt>, p: nat, full: nat, partial: bool) {
    exists k :: 0 <= k < |at| && at[k].problem == p && PointsOf(at[k], full, partial) == full
  }

  lemma WorstRowBest(at: seq<Attempt>, p: nat, full: nat, partial: bool)
    requires full > 0
    ensures WorstRow(at, p, full, partial).best <= full
    ensures WorstRow(at, p, full, partial).best == full <==> SolvedInFull(at, p, full, partial)
  {
    var line := Line(at, p, full, partial, false);
    BestIsReached(line);
    LineIsBounded(at, p, full, partial, false);
    RowsAreSound(line, full);
    FullInLine(at, p, full, partial);
    hide Line, RowOf, Best, SolvedInFull;
    if Best(line) > 0 {
      var i :| 0 <= i < |line| && line[i].points == Best(line);
      assert line[i] in line;
      if Best(line) == full { assert Line(at, p, full, partial, false)[i].points == full; }
    }
    if SolvedInFull(at, p, full, partial) {
      var i :| 0 <= i < |line| && Line(at, p, full, partial, false)[i].points == full;
      assert line[i].points <= Best(line);
      assert line[i] in line;
    }
  }

  lemma FullInLine(at: seq<Attempt>, p: nat, full: nat, partial: bool)
    requires full > 0
    ensures SolvedInFull(at, p, full, partial) <==>
            exists i :: 0 <= i < |Line(at, p, full, partial, false)| &&
              Line(at, p, full, partial, false)[i].points == full
  {
    var line := Line(at, p, full, partial, false);
    if SolvedInFull(at, p, full, partial) {
      LineHolds(at, p, full, partial, false);
      var k :| 0 <= k < |at| && at[k].problem == p && PointsOf(at[k], full, partial) == full;
      var i :| 0 <= i < |line| && line[i] == Imagined(at[k], full, partial, false);
      assert line[i].points == full;
    }
    if exists i :: 0 <= i < |line| && line[i].points == full {
      var i :| 0 <= i < |line| && line[i].points == full;
      FullComesFrom(at, p, full, partial, line[i]);
    }
  }

  lemma FullComesFrom(at: seq<Attempt>, p: nat, full: nat, partial: bool, e: Event)
    requires full > 0 && e in Line(at, p, full, partial, false) && e.points == full
    ensures SolvedInFull(at, p, full, partial)
  {
    LineComesFrom(at, p, full, partial, false);
    var a :| a in at && a.problem == p && e == Imagined(a, full, partial, false);
    assert PointsOf(a, full, partial) == full;
    var k :| 0 <= k < |at| && at[k] == a;
    assert at[k].problem == p && PointsOf(at[k], full, partial) == full;
  }

  lemma {:induction false} TotalAgainstSum(rows: seq<Row>, problems: seq<nat>)
    requires |rows| == |problems| && forall p :: 0 <= p < |rows| ==> rows[p].best <= problems[p]
    ensures Total(rows) <= Sum(problems)
    ensures Total(rows) == Sum(problems) <==> forall p :: 0 <= p < |rows| ==> rows[p].best == problems[p]
  {
    if rows != [] {
      var n := |rows| - 1;
      TotalAgainstSum(rows[..n], problems[..n]);
      if Total(rows) == Sum(problems) {
        assert Total(rows[..n]) == Sum(problems[..n]);
        forall p | 0 <= p < |rows| ensures rows[p].best == problems[p] {
          if p < n { assert rows[..n][p].best == problems[..n][p]; }
        }
      }
    }
  }

  /** What a call says about how it was won. */
  lemma ReasonMeans(game: Game, h: History, slot: Slot)
    requires Fits(game, h) && Called(game, h, slot)
    ensures var reason := DecideNow(game, h).reason;
            if Open(game, h) then
              (reason == AllSolved <==> forall p :: 0 <= p < |game.problems| ==>
                                          SolvedInFull(h.Of(slot), p, game.problems[p], game.rules.partial))
              && (reason != AllSolved ==> reason == Unreachable)
            else
              (reason == MorePoints <==> Worst(game, h, slot).score > BestOf(game, h, slot.Other()).score)
              && (reason == MorePoints ||
                  (reason == Earlier && Worst(game, h, slot).score == BestOf(game, h, slot.Other()).score))
  {
    SolvedAll(game, h, slot);
    FinishIsCertain(game, h, slot);
    NotBothCertain(game, h);
    DecideNowIs(game, h);
    hide Worst, BestOf, Sum, AnyPending, Fits, SolvedInFull, Open, DecideNow;
  }

  lemma SolvedAll(game: Game, h: History, slot: Slot)
    requires Fits(game, h)
    ensures Worst(game, h, slot).score >= Sum(game.problems) <==>
            forall p :: 0 <= p < |game.problems| ==> SolvedInFull(h.Of(slot), p, game.problems[p], game.rules.partial)
  {
    var s := Worst(game, h, slot);
    assert |s.problems| == |game.problems|;
    forall p | 0 <= p < |game.problems|
      ensures s.problems[p].best <= game.problems[p]
      ensures s.problems[p].best == game.problems[p] <==>
              SolvedInFull(h.Of(slot), p, game.problems[p], game.rules.partial)
    {
      WorstRowBest(h.Of(slot), p, game.problems[p], game.rules.partial);
      WorstOfRows(h.Of(slot), game.problems, game.rules.partial, game.rules.penalty, game.startedAt, p);
    }
    TotalAgainstSum(s.problems, game.problems);
  }

  // -------------------------------------------------------------------------------- what a poll says, exactly

  /** A submission still in the queue or being judged. */
  predicate Waiting(at: seq<Attempt>) {
    exists k :: 0 <= k < |at| && (at[k].status == QU || at[k].status == P || at[k].status == G)
  }

  /** Every answer of a poll: before the start, won by whoever is certain, and otherwise live, waiting or tied. */
  lemma OutcomeMeans(game: Game, h: History)
    requires Fits(game, h)
    ensures var open := !h.closed && h.now < game.endsAt;
            var none := h.now >= game.startedAt && !Certain(game, h, A) && !Certain(game, h, B);
            (DecideNow(game, h).Countdown? <==> h.now < game.startedAt) &&
            (DecideNow(game, h).Live? <==> none && open) &&
            (DecideNow(game, h).Verifying? <==> none && !open && (Waiting(h.a) || Waiting(h.b))) &&
            (DecideNow(game, h).Tie? <==> none && !open && !Waiting(h.a) && !Waiting(h.b))
  {
    hide Worst, BestOf, Beats, Sum, ReasonFor, Fits, DecideNow, Waiting, AnyPending;
    WaitingIs(h.a);
    WaitingIs(h.b);
    if game.startedAt <= h.now { DecideNowIs(game, h); } else { NotStarted(game, h); }
  }

  lemma WaitingIs(at: seq<Attempt>)
    ensures AnyPending(at) <==> Waiting(at)
  {
    forall k | 0 <= k < |at|
      ensures at[k].Pending() <==> at[k].status == QU || at[k].status == P || at[k].status == G
    {
    }
  }
}
