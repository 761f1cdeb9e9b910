/**
 The life of a started game between two polls (judge/arena/engine.py): verdicts arrive, players submit, time passes
 and polls close the game.  A game is called exactly when every way it can go on is won by the same player.
 */
module ArenaCalls {
  import opened Common
  import opened Scoring
  import opened ScoringOrder
  import opened ScoringRows

  datatype Game = Game(problems: seq<nat>, rules: Rules, startedAt: int, endsAt: int) {
    /** As rules.py checks them: every problem is worth points, and the game lasts at least a minute. */
    predicate Valid() {
      startedAt < endsAt && forall p :: 0 <= p < |problems| ==> problems[p] > 0
    }
  }

  datatype History = History(a: seq<Attempt>, b: seq<Attempt>, now: int, closed: bool) {
    function Of(slot: Slot): seq<Attempt> {
      if slot.A? then a else b
    }

    function With(slot: Slot, attempts: seq<Attempt>): History {
      if slot.A? then this.(a := attempts) else this.(b := attempts)
    }
  }

  /** The attempts of a player as load_attempts gives them: in order, made while the game was on, on its problems. */
  predicate Made(game: Game, attempts: seq<Attempt>, now: int) {
    Ordered(attempts) &&
    forall x :: x in attempts ==> game.startedAt <= x.date <= now && x.problem < |game.problems|
  }

  predicate Fits(game: Game, h: History) {
    game.Valid() && Made(game, h.a, h.now) && Made(game, h.b, h.now)
  }

  predicate Open(game: Game, h: History) {
    !h.closed && h.now < game.endsAt
  }

  function FutureAt(game: Game, h: History): Option<int> {
    if Open(game, h) then Some(h.now) else None
  }

  function DecideNow(game: Game, h: History): Decision {
    Decide(h.a, h.b, game.problems, game.rules, game.startedAt, game.endsAt, h.now, h.closed)
  }

  function Worst(game: Game, h: History, slot: Slot): Standing {
    WorstCase(h.Of(slot), game.problems, game.rules.partial, game.rules.penalty, game.startedAt)
  }

  function BestOf(game: Game, h: History, slot: Slot): Standing {
    BestCase(h.Of(slot), game.problems, game.rules.partial, game.rules.penalty, game.startedAt, FutureAt(game, h),
             game.rules.maxAttempts)
  }

  function ConfirmedOf(game: Game, h: History, slot: Slot): Standing {
    Confirmed(h.Of(slot), game.problems, game.rules.partial, game.rules.penalty, game.startedAt)
  }

  // ------------------------------------------------------------------------------------------------- moves

  /**
   Judge: news about a pending submission, a verdict or just that it is being graded.  Submit: a new submission.
   Wait: time passes.  Poll: somebody looks, and a game whose time is up is closed while its verdicts arrive.
   */
  datatype Move =
    | Judge(slot: Slot, k: nat, news: Attempt)
    | Submit(slot: Slot, problem: nat, id: nat)
    | Wait(until: int)
    | Poll

  predicate Legal(game: Game, h: History, m: Move) {
    match m
    case Judge(slot, k, news) =>
      k < |h.Of(slot)| && h.Of(slot)[k].Pending() &&
      news.id == h.Of(slot)[k].id && news.date == h.Of(slot)[k].date && news.problem == h.Of(slot)[k].problem
    case Submit(slot, problem, id) =>
      Open(game, h) && game.startedAt <= h.now && problem < |game.problems| &&
      CanStillTry(h.Of(slot), problem, game.rules.maxAttempts) &&
      forall x :: x in h.Of(slot) ==> x.id < id
    case Wait(until) => h.now <= until
    case Poll => true
  }

  function Sent(problem: nat, id: nat, date: int): Attempt {
    Attempt(id, date, QU, false, 0.0, 0.0, problem)
  }

  function Apply(game: Game, h: History, m: Move): History
    requires Legal(game, h, m)
  {
    match m
    case Judge(slot, k, news) => h.With(slot, h.Of(slot)[k := news])
    case Submit(slot, problem, id) => h.With(slot, h.Of(slot) + [Sent(problem, id, h.now)])
    case Wait(until) => h.(now := until)
    case Poll => if DecideNow(game, h).Verifying? then h.(closed := true) else h
  }

  predicate LegalRun(game: Game, h: History, moves: seq<Move>)
    decreases |moves|
  {
    moves == [] || (Legal(game, h, moves[0]) && LegalRun(game, Apply(game, h, moves[0]), moves[1..]))
  }

  function Run(game: Game, h: History, moves: seq<Move>): History
    requires LegalRun(game, h, moves)
    decreases |moves|
  {
    if moves == [] then h else Run(game, Apply(game, h, moves[0]), moves[1..])
  }

  /** Nobody can submit any more and every verdict is known. */
  predicate Over(game: Game, h: History) {
    game.startedAt <= h.now && !Open(game, h) && !AnyPending(h.a) && !AnyPending(h.b)
  }

  predicate Wins(game: Game, h: History, slot: Slot) {
    Beats(ConfirmedOf(game, h, slot), ConfirmedOf(game, h, slot.Other()))
  }

  // -------------------------------------------------------------------------------- how the two cases move

  lemma MoveFits(game: Game, h: History, m: Move)
    requires Fits(game, h) && Legal(game, h, m)
    ensures Fits(game, Apply(game, h, m)) && h.now <= Apply(game, h, m).now
  {
    match m
    case Judge(slot, k, news) => JudgedFits(game, h.Of(slot), h.now, k, news);
    case Submit(slot, problem, id) => SentFits(game, h.Of(slot), h.now, problem, id);
    case Wait(_) =>
    case Poll =>
  }

  lemma JudgedFits(game: Game, at: seq<Attempt>, now: int, k: nat, news: Attempt)
    requires Made(game, at, now) && k < |at|
    requires news.id == at[k].id && news.date == at[k].date && news.problem == at[k].problem
    ensures Made(game, at[k := news], now)
  {
    forall x | x in at[k := news] ensures game.startedAt <= x.date <= now && x.problem < |game.problems| {
      if x == news { assert at[k] in at; }
    }
  }

  lemma SentFits(game: Game, at: seq<Attempt>, now: int, problem: nat, id: nat)
    requires Made(game, at, now) && game.startedAt <= now && problem < |game.problems|
    requires forall x :: x in at ==> x.id < id
    ensures Made(game, at + [Sent(problem, id, now)], now)
  {
    var at' := at + [Sent(problem, id, now)];
    forall i, j | 0 <= i < j < |at'|
      ensures at'[i].date < at'[j].date || (at'[i].date == at'[j].date && at'[i].id < at'[j].id)
    {
      assert at'[i] in at;
    }
  }

  /** Worst case of a player over two lists of attempts, compared problem by problem. */
  lemma WorstCompare(game: Game, at: seq<Attempt>, at': seq<Attempt>)
    requires Ordered(at) && Ordered(at')
    requires forall p :: 0 <= p < |game.problems| ==>
               RowAtLeast(WorstRow(at', p, game.problems[p], game.rules.partial),
                          WorstRow(at, p, game.problems[p], game.rules.partial))
    ensures AtLeast(WorstCase(at', game.problems, game.rules.partial, game.rules.penalty, game.startedAt),
                    WorstCase(at, game.problems, game.rules.partial, game.rules.penalty, game.startedAt))
  {
    var s := WorstCase(at, game.problems, game.rules.partial, game.rules.penalty, game.startedAt);
    var s' := WorstCase(at', game.problems, game.rules.partial, game.rules.penalty, game.startedAt);
    forall p | 0 <= p < |game.problems|
      ensures SoundRow(s'.problems[p]) && SoundRow(s.problems[p]) && RowAtLeast(s'.problems[p], s.problems[p])
    {
      WorstOfRows(at, game.problems, game.rules.partial, game.rules.penalty, game.startedAt, p);
      WorstOfRows(at', game.problems, game.rules.partial, game.rules.penalty, game.startedAt, p);
    }
    StandingsCompare(s'.problems, s.problems, game.rules.penalty, game.startedAt);
  }

  lemma BestCompare(game: Game, at: seq<Attempt>, f: Option<int>, at': seq<Attempt>, f': Option<int>)
    requires Ordered(at) && Ordered(at') && NoneAfter(at, f) && NoneAfter(at', f')
    requires forall p :: 0 <= p < |game.problems| ==>
               RowAtLeast(BestRow(at, p, game.problems[p], game.rules.partial, f, game.rules.maxAttempts),
                          BestRow(at', p, game.problems[p], game.rules.partial, f', game.rules.maxAttempts))
    ensures AtLeast(BestCase(at, game.problems, game.rules.partial, game.rules.penalty, game.startedAt, f,
                             game.rules.maxAttempts),
                    BestCase(at', game.problems, game.rules.partial, game.rules.penalty, game.startedAt, f',
                             game.rules.maxAttempts))
  {
    var s := BestCase(at, game.problems, game.rules.partial, game.rules.penalty, game.startedAt, f,
                      game.rules.maxAttempts);
    var s' := BestCase(at', game.problems, game.rules.partial, game.rules.penalty, game.startedAt, f',
                       game.rules.maxAttempts);
    forall p | 0 <= p < |game.problems|
      ensures SoundRow(s'.problems[p]) && SoundRow(s.problems[p]) && RowAtLeast(s.problems[p], s'.problems[p])
    {
      BestOfRows(at, game.problems, game.rules.partial, game.rules.penalty, game.startedAt, f, game.rules.maxAttempts,
                 p);
      BestOfRows(at', game.problems, game.rules.partial, game.rules.penalty, game.startedAt, f', game.rules.maxAttempts,
                 p);
    }
    StandingsCompare(s.problems, s'.problems, game.rules.penalty, game.startedAt);
  }

  lemma SameStanding(s: Standing)
    requires s.score > 0 ==> s.effective.Some?
    ensures AtLeast(s, s)
  {}

  /** Worst of a player whose attempts did not change. */
  lemma WorstStays(game: Game, h: History, h': History, slot: Slot)
    requires Fits(game, h) && h'.Of(slot) == h.Of(slot)
    ensures AtLeast(Worst(game, h', slot), Worst(game, h, slot))
  {
    forall p | 0 <= p < |game.problems|
      ensures RowAtLeast(WorstRow(h'.Of(slot), p, game.problems[p], game.rules.partial),
                         WorstRow(h.Of(slot), p, game.problems[p], game.rules.partial))
    {
      RowsAreSound(Line(h.Of(slot), p, game.problems[p], game.rules.partial, false), game.problems[p]);
      SameRow(WorstRow(h.Of(slot), p, game.problems[p], game.rules.partial));
    }
    WorstCompare(game, h.Of(slot), h'.Of(slot));
  }

  /** Whatever happens next, nobody's worst case gets worse. */
  lemma MoveRaisesWorst(game: Game, h: History, m: Move, slot: Slot)
    requires Fits(game, h) && Legal(game, h, m)
    ensures AtLeast(Worst(game, Apply(game, h, m), slot), Worst(game, h, slot))
  {
    var h' := Apply(game, h, m);
    MoveFits(game, h, m);
    if h'.Of(slot) == h.Of(slot) {
      WorstStays(game, h, h', slot);
    } else {
      forall p | 0 <= p < |game.problems|
        ensures RowAtLeast(WorstRow(h'.Of(slot), p, game.problems[p], game.rules.partial),
                           WorstRow(h.Of(slot), p, game.problems[p], game.rules.partial))
      {
        if m.Judge? {
          NewsRaiseWorst(h.Of(slot), m.k, m.news, p, game.problems[p], game.rules.partial);
        } else {
          SentKeepsWorst(h.Of(slot), Sent(m.problem, m.id, h.now), p, game.problems[p], game.rules.partial);
          RowsAreSound(Line(h.Of(slot), p, game.problems[p], game.rules.partial, false), game.problems[p]);
          SameRow(WorstRow(h.Of(slot), p, game.problems[p], game.rules.partial));
        }
      }
      WorstCompare(game, h.Of(slot), h'.Of(slot));
    }
  }

  /** Best of a player whose attempts did not change, as time passes. */
  lemma BestFallsWithTime(game: Game, h: History, h': History, slot: Slot)
    requires Fits(game, h) && Fits(game, h') && h'.Of(slot) == h.Of(slot)
    requires FutureAt(game, h').Some? ==> FutureAt(game, h).Some? && h.now <= h'.now
    ensures AtLeast(BestOf(game, h, slot), BestOf(game, h', slot))
  {
    var at, f, f' := h.Of(slot), FutureAt(game, h), FutureAt(game, h');
    forall p | 0 <= p < |game.problems|
      ensures RowAtLeast(BestRow(at, p, game.problems[p], game.rules.partial, f, game.rules.maxAttempts),
                         BestRow(at, p, game.problems[p], game.rules.partial, f', game.rules.maxAttempts))
    {
      TimeLowersBest(at, p, game.problems[p], game.rules.partial, f, f', game.rules.maxAttempts);
    }
    BestCompare(game, at, f, at, f');
  }

  lemma NewsLowerBestOf(game: Game, h: History, m: Move)
    requires Fits(game, h) && m.Judge? && Legal(game, h, m) && Fits(game, Apply(game, h, m))
    ensures AtLeast(BestOf(game, h, m.slot), BestOf(game, Apply(game, h, m), m.slot))
    ensures (forall full :: Imagined(m.news, full, game.rules.partial, true).points == full) ==>
              AtLeast(BestOf(game, Apply(game, h, m), m.slot), BestOf(game, h, m.slot))
  {
    var at, at', f := h.Of(m.slot), h.Of(m.slot)[m.k := m.news], FutureAt(game, h);
    forall p | 0 <= p < |game.problems|
      ensures RowAtLeast(BestRow(at, p, game.problems[p], game.rules.partial, f, game.rules.maxAttempts),
                         BestRow(at', p, game.problems[p], game.rules.partial, f, game.rules.maxAttempts))
      ensures Imagined(m.news, game.problems[p], game.rules.partial, true).points == game.problems[p] ==>
              RowAtLeast(BestRow(at', p, game.problems[p], game.rules.partial, f, game.rules.maxAttempts),
                         BestRow(at, p, game.problems[p], game.rules.partial, f, game.rules.maxAttempts))
    {
      NewsLowerBest(at, m.k, m.news, p, game.problems[p], game.rules.partial, f, h.now, game.rules.maxAttempts);
    }
    BestCompare(game, at, f, at', f);
    if forall full :: Imagined(m.news, full, game.rules.partial, true).points == full {
      BestCompare(game, at', f, at, f);
    }
  }

  lemma SentKeepsBestOf(game: Game, h: History, m: Move)
    requires Fits(game, h) && m.Submit? && Legal(game, h, m) && Fits(game, Apply(game, h, m))
    ensures AtLeast(BestOf(game, h, m.slot), BestOf(game, Apply(game, h, m), m.slot))
    ensures AtLeast(BestOf(game, Apply(game, h, m), m.slot), BestOf(game, h, m.slot))
  {
    var at, sent, f := h.Of(m.slot), Sent(m.problem, m.id, h.now), FutureAt(game, h);
    forall p | 0 <= p < |game.problems|
      ensures RowAtLeast(BestRow(at, p, game.problems[p], game.rules.partial, f, game.rules.maxAttempts),
                         BestRow(at + [sent], p, game.problems[p], game.rules.partial, f, game.rules.maxAttempts))
      ensures RowAtLeast(BestRow(at + [sent], p, game.problems[p], game.rules.partial, f, game.rules.maxAttempts),
                         BestRow(at, p, game.problems[p], game.rules.partial, f, game.rules.maxAttempts))
    {
      SentKeepsBest(at, sent, p, game.problems[p], game.rules.partial, h.now, game.rules.maxAttempts);
    }
    BestCompare(game, at, f, at + [sent], f);
    BestCompare(game, at + [sent], f, at, f);
  }

  /** Whatever happens next, nobody's best case gets better. */
  lemma MoveLowersBest(game: Game, h: History, m: Move, slot: Slot)
    requires Fits(game, h) && Legal(game, h, m)
    ensures AtLeast(BestOf(game, h, slot), BestOf(game, Apply(game, h, m), slot))
  {
    MoveFits(game, h, m);
    if m.Judge? && m.slot == slot {
      NewsLowerBestOf(game, h, m);
    } else if m.Submit? && m.slot == slot {
      SentKeepsBestOf(game, h, m);
    } else {
      BestFallsWithTime(game, h, Apply(game, h, m), slot);
    }
  }

  /** The best case is never behind the worst case. */
  lemma BestCoversWorst(game: Game, h: History, slot: Slot)
    requires Fits(game, h)
    ensures AtLeast(BestOf(game, h, slot), Worst(game, h, slot))
  {
    var at, f := h.Of(slot), FutureAt(game, h);
    var s, t := BestOf(game, h, slot), Worst(game, h, slot);
    forall p | 0 <= p < |game.problems|
      ensures SoundRow(s.problems[p]) && SoundRow(t.problems[p]) && RowAtLeast(s.problems[p], t.problems[p])
    {
      WorstOfRows(at, game.problems, game.rules.partial, game.rules.penalty, game.startedAt, p);
      BestOfRows(at, game.problems, game.rules.partial, game.rules.penalty, game.startedAt, f, game.rules.maxAttempts,
                 p);
      BestRowCoversWorst(at, p, game.problems[p], game.rules.partial, f, game.rules.maxAttempts);
    }
    StandingsCompare(s.problems, t.problems, game.rules.penalty, game.startedAt);
  }

  lemma {:induction false} LinesAgree(at: seq<Attempt>, p: nat, full: nat, partial: bool)
    ensures var es, fs := Line(at, p, full, partial, true), Line(at, p, full, partial, false);
            |es| == |fs| && forall k :: 0 <= k < |es| ==>
              es[k].date == fs[k].date && (es[k] == fs[k] || es[k].points == full)
  {
    if at != [] { LinesAgree(at[1..], p, full, partial); }
  }

  lemma BestRowCoversWorst(at: seq<Attempt>, p: nat, full: nat, partial: bool, f: Option<int>, maxAttempts: nat)
    requires Ordered(at) && full > 0
    ensures RowAtLeast(BestRow(at, p, full, partial, f, maxAttempts), WorstRow(at, p, full, partial))
  {
    var es, fs := Line(at, p, full, partial, true), Line(at, p, full, partial, false);
    LinesAgree(at, p, full, partial);
    LineIsBounded(at, p, full, partial, true);
    LineIsBounded(at, p, full, partial, false);
    LineIsInOrder(at, p, full, partial, false);
    assert fs + [] == fs;
    FullSolvesDominate(es, Future(at, p, full, partial, f, maxAttempts), fs, [], full);
  }

  // ----------------------------------------------------------------------------------- the call is certain

  /** `slot` beats the rival even in its own worst case and the best case of the rival. */
  predicate Certain(game: Game, h: History, slot: Slot) {
    Beats(Worst(game, h, slot), BestOf(game, h, slot.Other()))
  }

  /** The two players are never both certain to win. */
  lemma NotBothCertain(game: Game, h: History)
    requires Fits(game, h)
    ensures !(Certain(game, h, A) && Certain(game, h, B))
  {
    BestCoversWorst(game, h, A);
    BestCoversWorst(game, h, B);
  }

  predicate Called(game: Game, h: History, slot: Slot) {
    DecideNow(game, h).Finish? && DecideNow(game, h).winner == slot
  }

  /** The decision, from the two cases of each player. */
  lemma DecideNowIs(game: Game, h: History)
    requires game.startedAt <= h.now
    ensures DecideNow(game, h) ==
            DecideFrom(Worst(game, h, A), Worst(game, h, B), BestOf(game, h, A), BestOf(game, h, B),
                       Open(game, h), AnyPending(h.a) || AnyPending(h.b), Sum(game.problems))
  {
    hide WorstCase, BestCase, Sum, AnyPending, DecideFrom;
  }

  lemma NotStarted(game: Game, h: History)
    requires h.now < game.startedAt
    ensures DecideNow(game, h).Countdown?
  {}

  lemma FinishIsCertain(game: Game, h: History, slot: Slot)
    requires Fits(game, h)
    ensures Called(game, h, slot) <==> game.startedAt <= h.now && Certain(game, h, slot)
  {
    hide Worst, BestOf, Beats, Sum, ReasonFor, AnyPending, Fits, Open, DecideNow;
    NotBothCertain(game, h);
    if game.startedAt <= h.now { DecideNowIs(game, h); } else { NotStarted(game, h); }
  }

  lemma CertainIsMonotone(game: Game, h: History, h': History, slot: Slot)
    requires Certain(game, h, slot)
    requires AtLeast(Worst(game, h', slot), Worst(game, h, slot))
    requires AtLeast(BestOf(game, h, slot.Other()), BestOf(game, h', slot.Other()))
    ensures Certain(game, h', slot)
  {
    hide Worst, BestOf;
    BeatsIsMonotone(Worst(game, h, slot), BestOf(game, h, slot.Other()),
                    Worst(game, h', slot), BestOf(game, h', slot.Other()));
  }

  lemma CallSurvivesMove(game: Game, h: History, m: Move, slot: Slot)
    requires Fits(game, h) && Legal(game, h, m) && Called(game, h, slot)
    ensures Fits(game, Apply(game, h, m)) && Called(game, Apply(game, h, m), slot)
  {
    hide *;
    MoveFits(game, h, m);
    MoveRaisesWorst(game, h, m, slot);
    MoveLowersBest(game, h, m, slot.Other());
    FinishIsCertain(game, h, slot);
    CertainIsMonotone(game, h, Apply(game, h, m), slot);
    FinishIsCertain(game, Apply(game, h, m), slot);
  }

  /** A call is stable: whatever verdicts and submissions arrive and however much time passes, it is the same. */
  lemma {:induction false} CallIsStable(game: Game, h: History, moves: seq<Move>, slot: Slot)
    requires Fits(game, h) && LegalRun(game, h, moves) && Called(game, h, slot)
    ensures Called(game, Run(game, h, moves), slot)
    decreases |moves|
  {
    if moves != [] {
      CallSurvivesMove(game, h, moves[0], slot);
      CallIsStable(game, Apply(game, h, moves[0]), moves[1..], slot);
    }
  }

  lemma {:induction false} RunFits(game: Game, h: History, moves: seq<Move>)
    requires Fits(game, h) && LegalRun(game, h, moves)
    ensures Fits(game, Run(game, h, moves)) && h.now <= Run(game, h, moves).now
    decreases |moves|
  {
    if moves != [] {
      MoveFits(game, h, moves[0]);
      RunFits(game, Apply(game, h, moves[0]), moves[1..]);
    }
  }

  lemma {:induction false} NothingPending(attempts: seq<Attempt>, problems: seq<nat>, solved: bool)
    requires !AnyPending(attempts)
    ensures PendingEvents(attempts, problems, solved) == []
  {
    if attempts != [] {
      assert !attempts[0].Pending();
      assert forall i :: 0 <= i < |attempts[1..]| ==> attempts[1..][i] == attempts[i + 1];
      NothingPending(attempts[1..], problems, solved);
    }
  }

  /** With every verdict known and nobody able to submit, both cases are the confirmed standing. */
  lemma OverIsConfirmed(game: Game, h: History, slot: Slot)
    requires !Open(game, h) && !AnyPending(h.Of(slot))
    ensures Worst(game, h, slot) == ConfirmedOf(game, h, slot) == BestOf(game, h, slot)
  {
    var judged := JudgedEvents(h.Of(slot), game.problems, game.rules.partial);
    NothingPending(h.Of(slot), game.problems, false);
    NothingPending(h.Of(slot), game.problems, true);
    assert judged + [] == judged && judged + [] + [] == judged;
  }

  // ----------------------------------------------------------------- a game not called can still go otherwise

  ghost function PendingOnes(at: seq<Attempt>): set<int> {
    set k | 0 <= k < |at| && at[k].Pending()
  }

  ghost function Unfinished(game: Game, at: seq<Attempt>): set<int> {
    set p | 0 <= p < |game.problems| && !Finished(at, p, game.problems[p], game.rules.partial)
  }

  function AsFailed(a: Attempt): Attempt {
    a.(status := AB)
  }

  function AsSolved(a: Attempt): Attempt {
    a.(status := D, accepted := true, casePoints := 1.0, caseTotal := 1.0)
  }

  lemma OneLessPending(at: seq<Attempt>, k: nat, news: Attempt)
    requires k < |at| && at[k].Pending() && !news.Pending()
    ensures |PendingOnes(at[k := news])| < |PendingOnes(at)|
  {
    assert PendingOnes(at[k := news]) == PendingOnes(at) - {k};
    assert k in PendingOnes(at);
  }

  lemma SolvedKeepsUnfinished(game: Game, at: seq<Attempt>, k: nat)
    requires k < |at| && at[k].Pending()
    ensures Unfinished(game, at[k := AsSolved(at[k])]) == Unfinished(game, at)
  {
    var at' := at[k := AsSolved(at[k])];
    forall p | 0 <= p < |game.problems|
      ensures Finished(at', p, game.problems[p], game.rules.partial)
              == Finished(at, p, game.problems[p], game.rules.partial)
    {
      var full, partial := game.problems[p], game.rules.partial;
      if Finished(at, p, full, partial) {
        var i :| 0 <= i < |at| && at[i].problem == p && Imagined(at[i], full, partial, true).points >= full;
        assert at'[i].problem == p && Imagined(at'[i], full, partial, true).points >= full;
      }
      if Finished(at', p, full, partial) {
        var i :| 0 <= i < |at'| && at'[i].problem == p && Imagined(at'[i], full, partial, true).points >= full;
        assert at[i].problem == p && Imagined(at[i], full, partial, true).points >= full;
      }
    }
  }

  lemma SentLowersUnfinished(game: Game, at: seq<Attempt>, sent: Attempt)
    requires sent.Pending() && sent.problem in Unfinished(game, at)
    ensures |Unfinished(game, at + [sent])| < |Unfinished(game, at)|
  {
    var p := sent.problem;
    assert Finished(at + [sent], p, game.problems[p], game.rules.partial) by {
      assert (at + [sent])[|at|] == sent;
    }
    forall q | q in Unfinished(game, at + [sent]) ensures q in Unfinished(game, at) {
      FinishedWithSent(at, sent, q, game.problems[q], game.rules.partial);
    }
    assert Unfinished(game, at + [sent]) < Unfinished(game, at);
    SubsetSize(Unfinished(game, at + [sent]), Unfinished(game, at));
  }

  lemma SubsetSize<T>(x: set<T>, y: set<T>)
    requires x < y
    ensures |x| < |y|
  {
    assert y == x + (y - x);
    assert |y| == |x| + |y - x|;
  }

  lemma FailedKeepsWorst(game: Game, h: History, slot: Slot, k: nat)
    requires Fits(game, h) && k < |h.Of(slot)| && h.Of(slot)[k].Pending()
    ensures var h' := h.With(slot, h.Of(slot)[k := AsFailed(h.Of(slot)[k])]);
            Worst(game, h', slot) == Worst(game, h, slot)
  {
    var at := h.Of(slot);
    var at' := at[k := AsFailed(at[k])];
    var h' := h.With(slot, at');
    JudgedFits(game, at, h.now, k, AsFailed(at[k]));
    var s, s' := Worst(game, h, slot), Worst(game, h', slot);
    forall p | 0 <= p < |game.problems| ensures s.problems[p] == s'.problems[p] {
      FailedKeepsWorstRow(at, k, p, game.problems[p], game.rules.partial);
      WorstOfRows(at, game.problems, game.rules.partial, game.rules.penalty, game.startedAt, p);
      WorstOfRows(at', game.problems, game.rules.partial, game.rules.penalty, game.startedAt, p);
    }
    assert s.problems == s'.problems;
  }

  lemma FailedKeepsWorstRow(at: seq<Attempt>, k: nat, p: nat, full: nat, partial: bool)
    requires k < |at| && at[k].Pending()
    ensures WorstRow(at[k := AsFailed(at[k])], p, full, partial) == WorstRow(at, p, full, partial)
  {
    var x, y := NewsInLine(at, k, AsFailed(at[k]), p, full, partial, false);
  }

  lemma {:induction false} EmptyTotal(rows: seq<Row>)
    requires forall i :: 0 <= i < |rows| ==> rows[i].best == 0
    ensures Total(rows) == 0
  {
    if rows != [] { EmptyTotal(rows[..|rows| - 1]); }
  }

  /** Before the game starts nobody has made an attempt, so nobody has a score. */
  lemma CountdownHasNoScore(game: Game, h: History, slot: Slot)
    requires Fits(game, h) && h.now < game.startedAt
    ensures h.Of(slot) == [] && Worst(game, h, slot).score == 0
  {
    assert forall i :: 0 <= i < |h.Of(slot)| ==> h.Of(slot)[i] in h.Of(slot);
    var s := Worst(game, h, slot);
    forall p | 0 <= p < |game.problems| ensures s.problems[p].best == 0 {
      WorstOfRows(h.Of(slot), game.problems, game.rules.partial, game.rules.penalty, game.startedAt, p);
      assert Line([], p, game.problems[p], game.rules.partial, false) == [];
    }
    EmptyTotal(s.problems);
  }

  /** With nothing left to hope for, waiting for the end costs nothing. */
  lemma WaitingKeepsBest(game: Game, h: History, until: int, slot: Slot)
    requires Fits(game, h) && h.now <= until && game.endsAt <= until
    requires Open(game, h) ==> forall p :: 0 <= p < |game.problems| ==>
               p !in Unfinished(game, h.Of(slot)) || !CanStillTry(h.Of(slot), p, game.rules.maxAttempts)
    ensures AtLeast(BestOf(game, h.(now := until), slot), BestOf(game, h, slot))
  {
    var at, h' := h.Of(slot), h.(now := until);
    MoveFits(game, h, Wait(until));
    forall p | 0 <= p < |game.problems|
      ensures RowAtLeast(BestRow(at, p, game.problems[p], game.rules.partial, FutureAt(game, h'),
                                 game.rules.maxAttempts),
                         BestRow(at, p, game.problems[p], game.rules.partial, FutureAt(game, h),
                                 game.rules.maxAttempts))
    {
      RowsAreSound(Line(at, p, game.problems[p], game.rules.partial, true)
                   + Future(at, p, game.problems[p], game.rules.partial, FutureAt(game, h), game.rules.maxAttempts),
                   game.problems[p]);
    }
    BestCompare(game, at, FutureAt(game, h'), at, FutureAt(game, h));
  }

  /** A number above every id used so far: the next row of the database. */
  lemma FreshId(at: seq<Attempt>) returns (id: nat)
    ensures forall x :: x in at ==> x.id < id
  {
    id := 0;
    for i := 0 to |at|
      invariant forall k :: 0 <= k < i ==> at[k].id < id
    {
      if at[i].id >= id { id := at[i].id + 1; }
    }
  }

  lemma StillNotCertain(game: Game, h: History, h': History, leader: Slot)
    requires Fits(game, h) && !Certain(game, h, leader)
    requires AtLeast(Worst(game, h, leader), Worst(game, h', leader))
    requires AtLeast(BestOf(game, h', leader.Other()), BestOf(game, h, leader.Other()))
    ensures !Certain(game, h', leader)
  {
    if Certain(game, h', leader) {
      CertainIsMonotone(game, h', h, leader);
    }
  }

  lemma ScoreHasEffective(attempts: seq<Attempt>, game: Game)
    requires Ordered(attempts)
    ensures var s := WorstCase(attempts, game.problems, game.rules.partial, game.rules.penalty, game.startedAt);
            s.score > 0 ==> s.effective.Some?
  {
    var s := WorstCase(attempts, game.problems, game.rules.partial, game.rules.penalty, game.startedAt);
    forall p | 0 <= p < |s.problems| ensures SoundRow(s.problems[p]) {
      WorstOfRows(attempts, game.problems, game.rules.partial, game.rules.penalty, game.startedAt, p);
    }
    ReachIffPoints(s.problems);
  }

  /** The next step of a continuation the leader does not win, unless everything is settled. */
  lemma SpoilMove(game: Game, h: History, leader: Slot) returns (m: Move)
    requires Fits(game, h) && !Certain(game, h, leader)
    requires AnyPending(h.Of(leader)) || AnyPending(h.Of(leader.Other())) ||
             (Open(game, h) && game.startedAt <= h.now &&
              exists p :: p in Unfinished(game, h.Of(leader.Other()))
                          && CanStillTry(h.Of(leader.Other()), p, game.rules.maxAttempts))
    ensures Legal(game, h, m) && !Certain(game, Apply(game, h, m), leader)
    ensures var r := leader.Other();
            var h' := Apply(game, h, m);
            |Unfinished(game, h'.Of(r))| < |Unfinished(game, h.Of(r))| ||
            (|Unfinished(game, h'.Of(r))| == |Unfinished(game, h.Of(r))|
             && |PendingOnes(h'.a)| + |PendingOnes(h'.b)| < |PendingOnes(h.a)| + |PendingOnes(h.b)|)
  {
    var r := leader.Other();
    if AnyPending(h.Of(leader)) {
      m := SpoilLeader(game, h, leader);
    } else if AnyPending(h.Of(r)) {
      m := SpoilVerdict(game, h, leader);
    } else {
      var p :| p in Unfinished(game, h.Of(r)) && CanStillTry(h.Of(r), p, game.rules.maxAttempts);
      m := SpoilSubmission(game, h, leader, p);
    }
  }

  lemma SpoilLeader(game: Game, h: History, leader: Slot) returns (m: Move)
    requires Fits(game, h) && !Certain(game, h, leader) && AnyPending(h.Of(leader))
    ensures Legal(game, h, m) && !Certain(game, Apply(game, h, m), leader)
    ensures Apply(game, h, m).Of(leader.Other()) == h.Of(leader.Other())
    ensures var h' := Apply(game, h, m);
            |PendingOnes(h'.a)| + |PendingOnes(h'.b)| < |PendingOnes(h.a)| + |PendingOnes(h.b)|
  {
    hide Fits, Beats, BestCase, PendingOnes, Worst;
    var k :| 0 <= k < |h.Of(leader)| && h.Of(leader)[k].Pending();
    m := Judge(leader, k, AsFailed(h.Of(leader)[k]));
    FailedKeepsWorst(game, h, leader, k);
    OneLessPending(h.Of(leader), k, m.news);
    assert BestOf(game, Apply(game, h, m), leader.Other()) == BestOf(game, h, leader.Other());
  }

  lemma SpoilVerdict(game: Game, h: History, leader: Slot) returns (m: Move)
    requires Fits(game, h) && !Certain(game, h, leader) && AnyPending(h.Of(leader.Other()))
    ensures Legal(game, h, m) && !Certain(game, Apply(game, h, m), leader)
    ensures Unfinished(game, Apply(game, h, m).Of(leader.Other())) == Unfinished(game, h.Of(leader.Other()))
    ensures var h' := Apply(game, h, m);
            |PendingOnes(h'.a)| + |PendingOnes(h'.b)| < |PendingOnes(h.a)| + |PendingOnes(h.b)|
  {
    hide Fits, Certain, BestOf, PendingOnes, Worst, Unfinished;
    var r := leader.Other();
    var k :| 0 <= k < |h.Of(r)| && h.Of(r)[k].Pending();
    m := Judge(r, k, AsSolved(h.Of(r)[k]));
    MoveFits(game, h, m);
    NewsLowerBestOf(game, h, m);
    SolvedKeepsUnfinished(game, h.Of(r), k);
    OneLessPending(h.Of(r), k, m.news);
    SpoilByRival(game, h, m, leader);
  }

  lemma SpoilSubmission(game: Game, h: History, leader: Slot, p: nat) returns (m: Move)
    requires Fits(game, h) && !Certain(game, h, leader) && Open(game, h) && game.startedAt <= h.now
    requires p in Unfinished(game, h.Of(leader.Other())) && CanStillTry(h.Of(leader.Other()), p, game.rules.maxAttempts)
    ensures Legal(game, h, m) && !Certain(game, Apply(game, h, m), leader)
    ensures |Unfinished(game, Apply(game, h, m).Of(leader.Other()))| < |Unfinished(game, h.Of(leader.Other()))|
  {
    var r := leader.Other();
    var id := FreshId(h.Of(r));
    m := Submit(r, p, id);
    MoveFits(game, h, m);
    SentKeepsBestOf(game, h, m);
    SentLowersUnfinished(game, h.Of(r), Sent(p, id, h.now));
    SpoilByRival(game, h, m, leader);
  }

  lemma SpoilByRival(game: Game, h: History, m: Move, leader: Slot)
    requires Fits(game, h) && !Certain(game, h, leader) && Legal(game, h, m)
    requires (m.Judge? || m.Submit?) && m.slot == leader.Other()
    requires AtLeast(BestOf(game, Apply(game, h, m), m.slot), BestOf(game, h, m.slot))
    ensures !Certain(game, Apply(game, h, m), leader)
  {
    ScoreHasEffective(h.Of(leader), game);
    SameStanding(Worst(game, h, leader));
    StillNotCertain(game, h, Apply(game, h, m), leader);
  }

  /** The last step: time runs out. */
  lemma SpoilEnd(game: Game, h: History, leader: Slot) returns (m: Move)
    requires Fits(game, h) && !Certain(game, h, leader)
    requires !AnyPending(h.Of(leader)) && !AnyPending(h.Of(leader.Other()))
    requires Open(game, h) && game.startedAt <= h.now ==>
               forall p :: p in Unfinished(game, h.Of(leader.Other())) ==>
                 !CanStillTry(h.Of(leader.Other()), p, game.rules.maxAttempts)
    ensures Legal(game, h, m) && Over(game, Apply(game, h, m)) && !Wins(game, Apply(game, h, m), leader)
  {
    var until := Max(h.now, game.endsAt);
    m := Wait(until);
    var h' := Apply(game, h, m);
    if h.now < game.startedAt {
      CountdownHasNoScore(game, h, leader);
    } else {
      WaitingKeepsBest(game, h, until, leader.Other());
      ScoreHasEffective(h.Of(leader), game);
      SameStanding(Worst(game, h, leader));
      StillNotCertain(game, h, h', leader);
    }
    OverIsConfirmed(game, h', leader);
    OverIsConfirmed(game, h', leader.Other());
  }

  lemma MoveFirst(game: Game, h: History, m: Move, rest: seq<Move>)
    requires Legal(game, h, m) && LegalRun(game, Apply(game, h, m), rest)
    ensures LegalRun(game, h, [m] + rest) && Run(game, h, [m] + rest) == Run(game, Apply(game, h, m), rest)
  {
    assert ([m] + rest)[1..] == rest;
  }

  /** Unless it is certain, some way the game can go on is not won by `leader`. */
  lemma {:induction false} Spoil(game: Game, h: History, leader: Slot) returns (moves: seq<Move>)
    requires Fits(game, h) && !Certain(game, h, leader)
    ensures LegalRun(game, h, moves) && Over(game, Run(game, h, moves)) && !Wins(game, Run(game, h, moves), leader)
    decreases |Unfinished(game, h.Of(leader.Other()))|, |PendingOnes(h.a)| + |PendingOnes(h.b)|
  {
    hide Fits, Certain, Wins, AnyPending, CanStillTry, Unfinished, PendingOnes, Legal, Apply, Open;
    var r := leader.Other();
    if AnyPending(h.Of(leader)) || AnyPending(h.Of(r)) ||
       (Open(game, h) && game.startedAt <= h.now &&
        exists p :: p in Unfinished(game, h.Of(r)) && CanStillTry(h.Of(r), p, game.rules.maxAttempts))
    {
      var m := SpoilMove(game, h, leader);
      MoveFits(game, h, m);
      var rest := Spoil(game, Apply(game, h, m), leader);
      MoveFirst(game, h, m, rest);
      moves := [m] + rest;
    } else {
      var m := SpoilEnd(game, h, leader);
      MoveFirst(game, h, m, []);
      moves := [m] + [];
    }
  }

  /**
   The rule of scoring.py, exactly: a game is called for a player when, and only when, that player strictly beats
   the rival however the pending verdicts turn out and whatever both still submit while the game is open.
   */
  lemma CalledIffCertain(game: Game, h: History, slot: Slot)
    requires Fits(game, h)
    ensures Called(game, h, slot) <==>
            forall moves :: LegalRun(game, h, moves) && Over(game, Run(game, h, moves)) ==>
              Wins(game, Run(game, h, moves), slot)
  {
    FinishIsCertain(game, h, slot);
    if Called(game, h, slot) {
      forall moves | LegalRun(game, h, moves) && Over(game, Run(game, h, moves))
        ensures Wins(game, Run(game, h, moves), slot)
      {
        var last := Run(game, h, moves);
        RunFits(game, h, moves);
        CallIsStable(game, h, moves, slot);
        FinishIsCertain(game, last, slot);
        OverIsConfirmed(game, last, slot);
        OverIsConfirmed(game, last, slot.Other());
      }
    } else if !Certain(game, h, slot) {
      var moves := Spoil(game, h, slot);
    } else {
      CountdownHasNoScore(game, h, slot);
    }
  }
}
