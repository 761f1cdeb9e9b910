/** How long a tournament lasts: whatever is decided or corrected on the way, always the same number of matches. */
module BracketLength {
  import opened Common
  import opened Seeding
  import opened Bracket
  import opened BracketRuns
  import opened BracketFates

  // ---------------------------------------------------------------------------------- how many matches there are

  ghost function Level(r: nat, n: nat): set<Place> {
    set p | 0 <= p < n :: Main(r, p)
  }

  lemma {:induction false} LevelSize(r: nat, n: nat)
    ensures |Level(r, n)| == n
  {
    if n > 0 {
      LevelSize(r, n - 1);
      assert Level(r, n) == Level(r, n - 1) + {Main(r, n - 1)};
    } else {
      assert Level(r, 0) == {};
    }
  }

  ghost function Levels(rounds: nat, r: nat): set<Place>
    requires r <= rounds
  {
    if r == 0 then {} else Levels(rounds, r - 1) + Level(r, Pow2(rounds - r))
  }

  lemma {:induction false} LevelsHold(rounds: nat, r: nat, at: Place)
    requires r <= rounds
    ensures at in Levels(rounds, r) <==> at.Main? && 1 <= at.round <= r && at.pos < Pow2(rounds - at.round)
  {
    hide Pow2;
    if r > 0 { LevelsHold(rounds, r - 1, at); }
  }

  lemma {:induction false} LevelsSize(rounds: nat, r: nat)
    requires r <= rounds
    ensures |Levels(rounds, r)| == Pow2(rounds) - Pow2(rounds - r)
  {
    if r > 0 {
      LevelsSize(rounds, r - 1);
      LevelSize(r, Pow2(rounds - r));
      var before := Levels(rounds, r - 1);
      forall at | at in before ensures at !in Level(r, Pow2(rounds - r)) {
        LevelsHold(rounds, r - 1, at);
      }
      assert Pow2(rounds - (r - 1)) == 2 * Pow2(rounds - r);
      hide Pow2, Level;
      assert before !! Level(r, Pow2(rounds - r));
    }
  }

  /** Of 2^k seeds, the matches of the best m of them in the first round. */
  ghost function BestSeats(k: nat, m: nat): set<Place> {
    set p | 0 <= p < Pow2(k) && Order(k)[p] <= m :: Main(1, p)
  }

  lemma {:induction false} BestSeatsSize(k: nat, m: nat)
    requires m <= Pow2(k)
    ensures |BestSeats(k, m)| == m
  {
    hide Order, Pow2, SeatOf;
    if m > 0 {
      BestSeatsSize(k, m - 1);
      var seat := SeatOf(k, m);
      forall p | 0 <= p < Pow2(k) ensures Order(k)[p] == m <==> p == seat {
        EverySeedOnce(k, m, p);
      }
      assert BestSeats(k, m) == BestSeats(k, m - 1) + {Main(1, seat)};
      assert Main(1, seat) !in BestSeats(k, m - 1);
    } else {
      assert BestSeats(k, 0) == {};
    }
  }

  ghost function ByeMatches(b: Bracket): set<Place> {
    set at | at in b.rows && !b.rows[at].Both() && at.Main? && at.round == 1
  }

  lemma FirstRoundSlot(b: Bracket, p: nat, s: Slot)
    requires Consistent(b) && Main(1, p) in b.rows
    ensures p < Pow2(b.rounds - 1) && 2 * p + Offset(s) < Pow2(b.rounds)
    ensures b.rows[Main(1, p)].Of(s).Some? <==> Order(b.rounds)[2 * p + Offset(s)] <= |b.players|
  {
    RowParts(b, Main(1, p), s);
    hide ShapeOk, LinksOk, RowOk, Order;
  }

  lemma FirstRoundSlots(b: Bracket, p: nat)
    requires Consistent(b) && Main(1, p) in b.rows
    ensures p < Pow2(b.rounds - 1) && b.rows[Main(1, p)].a.Some?
    ensures b.rows[Main(1, p)].Both() <==> Order(b.rounds - 1)[p] > Pow2(b.rounds) - |b.players|
  {
    hide Order, RowOk, IsPlace;
    FirstRoundSlot(b, p, A);
    FirstRoundSlot(b, p, B);
    ByesGoToTheBest(b.rounds, |b.players|, p);
    FirstRoundPairs(b.rounds, p);
  }

  /** The byes are as many as the empty places, and go to the best seeds. */
  lemma CountByes(b: Bracket)
    requires Consistent(b)
    ensures ByeMatches(b) == BestSeats(b.rounds - 1, Pow2(b.rounds) - |b.players|)
    ensures |ByeMatches(b)| == Pow2(b.rounds) - |b.players|
  {
    var best := BestSeats(b.rounds - 1, Pow2(b.rounds) - |b.players|);
    forall at ensures at in ByeMatches(b) <==> at in best {
      if at.Main? && at.round == 1 && at.pos < Pow2(b.rounds - 1) {
        assert IsPlace(b, at);
        FirstRoundSlots(b, at.pos);
      }
      if at in b.rows { assert IsPlace(b, at); }
    }
    BestSeatsSize(b.rounds - 1, Pow2(b.rounds) - |b.players|);
  }

  // ---------------------------------------------------------------------------------- how many were decided

  /** The matches decided between two players. */
  ghost function Played(b: Bracket): set<Place> {
    set at | at in b.rows && b.rows[at].status.DECIDED? && !b.rows[at].reason.Bye?
  }

  ghost function Length(b: Bracket): int {
    |b.players| - 1 + if b.third then 1 else 0
  }

  lemma {:induction false} DecidedFromTheTop(b: Bracket, r: nat, p: nat)
    requires Consistent(b) && Decided(b, Main(b.rounds, 0)) && Main(r, p) in b.rows
    ensures Decided(b, Main(r, p))
    decreases b.rounds - r
  {
    var at := Main(r, p);
    RowParts(b, at, A);
    if r == b.rounds { assert Pow2(0) == 1; }
    if r < b.rounds {
      LinksAreIn(b, at);
      var next := Main(r + 1, p / 2);
      DecidedFromTheTop(b, r + 1, p / 2);
      RowParts(b, next, SlotOf(p));
      FeederIsLink(b, at, next, SlotOf(p));
      assert b.rows[next].Both();
    }
  }

  lemma PlayedWhenEnded(b: Bracket)
    requires Consistent(b) && Ended(b)
    ensures Played(b) + ByeMatches(b) == b.rows.Keys && Played(b) !! ByeMatches(b)
  {
    FinalIsPlace(b);
    forall at | at in b.rows ensures at in Played(b) || at in ByeMatches(b) {
      RowParts(b, at, A);
      if at.Main? { DecidedFromTheTop(b, at.round, at.pos); }
    }
    forall at | at in Played(b) ensures at !in ByeMatches(b) { RowParts(b, at, A); }
  }

  lemma CountRows(b: Bracket)
    requires Consistent(b)
    ensures |b.rows.Keys| == Pow2(b.rounds) - 1 + if b.third then 1 else 0
  {
    hide Levels, Pow2, RowOk, IsPlace;
    LevelsSize(b.rounds, b.rounds);
    OnePlace();
    var all := Levels(b.rounds, b.rounds) + if b.third then {Third} else {};
    forall at ensures at in b.rows.Keys <==> at in all { PlacesAre(b, at); }
    LevelsHold(b.rounds, b.rounds, Third);
    assert b.rows.Keys == all;
  }

  lemma OnePlace()
    ensures Pow2(0) == 1
  {}

  lemma PlacesAre(b: Bracket, at: Place)
    ensures IsPlace(b, at) <==> at in Levels(b.rounds, b.rounds) || (b.third && at.Third?)
  {
    hide Levels, Pow2;
    LevelsHold(b.rounds, b.rounds, at);
  }

  /** A finished tournament of n participants had n - 1 matches between two players, and the one for third place. */
  lemma LengthWhenEnded(b: Bracket)
    requires Consistent(b) && Ended(b)
    ensures |Played(b)| == Length(b)
  {
    PlayedWhenEnded(b);
    CountByes(b);
    CountRows(b);
    assert |b.rows.Keys| == |Played(b)| + |ByeMatches(b)|;
  }

  lemma NoMoreThanThat(b: Bracket)
    requires Consistent(b)
    ensures |Played(b)| <= Length(b) && (|Played(b)| == Length(b) ==> Ended(b))
  {
    CountByes(b);
    CountRows(b);
    FinalIsPlace(b);
    forall at | at in Played(b) ensures at in b.rows.Keys - ByeMatches(b) { RowParts(b, at, A); }
    assert ByeMatches(b) <= b.rows.Keys;
    assert |b.rows.Keys - ByeMatches(b)| == Length(b);
    Fewer(Played(b), b.rows.Keys - ByeMatches(b));
    if |Played(b)| == Length(b) {
      assert Played(b) == b.rows.Keys - ByeMatches(b);
      SizedRounds(b);
      FinalNotBye(b);
      assert Main(b.rounds, 0) in Played(b);
      assert b.third ==> Third in Played(b);
    }
  }

  lemma FinalNotBye(b: Bracket)
    requires Consistent(b)
    ensures Main(b.rounds, 0) in b.rows && Main(b.rounds, 0) !in ByeMatches(b)
  {
    FinalIsPlace(b);
    RowParts(b, Main(b.rounds, 0), A);
    RowParts(b, Main(b.rounds, 0), B);
    if b.rounds == 1 {
      SizedRounds(b);
      assert Pow2(1) == 2;
      assert Seeded(b, 0).Some? && Seeded(b, 1).Some?;
    }
  }

  lemma Fewer<T>(x: set<T>, y: set<T>)
    requires x <= y
    ensures |x| <= |y| && (|x| == |y| ==> x == y)
  {
    assert y == x + (y - x);
    assert |y| == |x| + |y - x|;
  }

  // ------------------------------------------------------------------------------------------------ whole runs

  /**
   Play: a game of a match with both players starts, and neither can be exchanged any more.  Win: such a match is
   decided.  Correct: the winner of a decided match changes.
   */
  datatype Action = Play(at: Place) | Win(at: Place, slot: Slot, reason: Reason) | Correct(at: Place, slot: Slot)

  function Begun(b: Bracket, at: Place): Bracket
    requires at in b.rows
  {
    b.(rows := b.rows[at := b.rows[at].(status := PLAYING, played := true)])
  }

  lemma BegunSlot(b: Bracket, at: Place, q: Place, s: Slot)
    requires Consistent(b) && Open(b, at) && q in b.rows
    ensures q in Begun(b, at).rows && SlotOk(Begun(b, at), q, s)
  {
    hide Pow2, Order, Seeded, Sized, Feeder, RowOk, LinksOk;
    RowParts(b, q, s);
    RowParts(b, at, s);
    SlotAlike(b, Begun(b, at), q, s);
  }

  lemma BegunRow(b: Bracket, at: Place, q: Place)
    requires Consistent(b) && Open(b, at) && q in b.rows
    ensures q in Begun(b, at).rows && RowOk(Begun(b, at), q)
  {
    hide Pow2, Sized, SlotOk;
    BegunSlot(b, at, q, A);
    BegunSlot(b, at, q, B);
    RowParts(b, q, A);
  }

  lemma PlayKeepsGood(b: Bracket, at: Place)
    requires Good(b) && b.stage.RUNNING? && Open(b, at)
    ensures Good(Begun(b, at)) && Played(Begun(b, at)) == Played(b)
  {
    var b' := Begun(b, at);
    forall q {:trigger RowOk(b', q)} | q in b'.rows ensures RowOk(b', q) { BegunRow(b, at, q); }
    hide RowOk;
    Reassemble(b, b');
    assert Decided(b', Main(b.rounds, 0)) == Decided(b, Main(b.rounds, 0));
    RowParts(b, at, A);
    forall q ensures q in Played(b') <==> q in Played(b) {}
  }

  ghost predicate Legal(b: Bracket, act: Action) {
    match act
    case Play(at) => b.stage.RUNNING? && Open(b, at)
    case Win(at, slot, reason) => b.stage.RUNNING? && Open(b, at) && !reason.Bye?
    case Correct(at, slot) =>
      at in b.rows && Linked(b, at) && CanCorrect(b, at, slot) && SafeTargets(b, Corrected(b.rows[at], slot))
  }

  ghost function Act(b: Bracket, act: Action): Bracket
    requires Good(b) && Legal(b, act)
  {
    match act
    case Play(at) => Begun(b, at)
    case Win(at, slot, reason) => DecideKeepsGood(b, at, slot, reason); Decide(b, at, slot, reason).value
    case Correct(at, slot) => CorrectionKeepsGood(b, at, slot); SetWinner(b, at, slot).value
  }

  lemma ActKeepsGood(b: Bracket, act: Action)
    requires Good(b) && Legal(b, act)
    ensures Good(Act(b, act)) && Length(Act(b, act)) == Length(b)
    ensures b.stage.RUNNING? ==> !Act(b, act).stage.DRAFT?
    ensures |Played(Act(b, act))| == |Played(b)| + if act.Win? then 1 else 0
  {
    match act
    case Play(at) => PlayKeepsGood(b, at);
    case Win(at, slot, reason) =>
      DecideKeepsGood(b, at, slot, reason);
      DecideResolves(b, at, slot, reason);
      WinCounts(b, at, b.rows[at].(status := DECIDED, winner := Some(slot), reason := reason));
    case Correct(at, slot) =>
      CorrectionKeepsGood(b, at, slot);
      CorrectionResolves(b, at, slot);
      CorrectionCounts(b, at, Corrected(b.rows[at], slot));
  }

  lemma WinCounts(b: Bracket, at: Place, row: Row)
    requires Resolves(b, at, row) && !b.rows[at].status.DECIDED?
    ensures var b' := CheckFinished(b.(rows := After(b, at, row)));
            Played(b') == Played(b) + {at} && at !in Played(b) && |Played(b')| == |Played(b)| + 1
  {
    hide After, Consistent;
    var b' := CheckFinished(b.(rows := After(b, at, row)));
    RowAfter(b, at, row, at);
    forall q ensures q in Played(b') <==> q in Played(b) || q == at {
      DecidedAfter(b, at, row, q);
    }
  }

  lemma CorrectionCounts(b: Bracket, at: Place, row: Row)
    requires Resolves(b, at, row) && b.rows[at].status.DECIDED?
    ensures Played(CheckFinished(b.(rows := After(b, at, row), stage := RUNNING))) == Played(b)
  {
    var b' := CheckFinished(b.(rows := After(b, at, row), stage := RUNNING));
    RowAfter(b, at, row, at);
    RowParts(b, at, A);
    forall q ensures q in Played(b') <==> q in Played(b) {
      DecidedAfter(b, at, row, q);
    }
  }

  ghost predicate LegalRun(b: Bracket, acts: seq<Action>)
    decreases |acts|
  {
    acts == [] || (Good(b) && Legal(b, acts[0]) && LegalRun(Act(b, acts[0]), acts[1..]))
  }

  ghost function Run(b: Bracket, acts: seq<Action>): Bracket
    requires LegalRun(b, acts)
    decreases |acts|
  {
    if acts == [] then b else Run(Act(b, acts[0]), acts[1..])
  }

  function Wins(acts: seq<Action>): nat {
    if acts == [] then 0 else (if acts[0].Win? then 1 else 0) + Wins(acts[1..])
  }

  lemma {:induction false} RunKeepsGood(b: Bracket, acts: seq<Action>)
    requires Good(b) && b.stage != DRAFT && LegalRun(b, acts)
    ensures Good(Run(b, acts)) && Run(b, acts).stage != DRAFT && Length(Run(b, acts)) == Length(b)
    ensures |Played(Run(b, acts))| == |Played(b)| + Wins(acts)
    decreases |acts|
  {
    if acts != [] {
      ActKeepsGood(b, acts[0]);
      ActStage(b, acts[0]);
      RunKeepsGood(Act(b, acts[0]), acts[1..]);
    }
  }

  lemma ActStage(b: Bracket, act: Action)
    requires Good(b) && b.stage != DRAFT && Legal(b, act)
    ensures Act(b, act).stage != DRAFT
  {
    match act
    case Play(at) =>
    case Win(at, slot, reason) => DecideKeepsGood(b, at, slot, reason);
    case Correct(at, slot) => CorrectionKeepsGood(b, at, slot);
  }

  /**
   A tournament just started is finished exactly when n - 1 matches have been decided (n with a match for third
   place), whatever order they are played and decided in and whatever is corrected meanwhile.
   */
  lemma ExactLength(b: Bracket, acts: seq<Action>)
    requires Good(b) && b.stage.RUNNING? && Played(b) == {} && LegalRun(b, acts)
    ensures Wins(acts) <= Length(b)
    ensures Run(b, acts).stage.FINISHED? <==> Wins(acts) == Length(b)
  {
    RunKeepsGood(b, acts);
    var last := Run(b, acts);
    NoMoreThanThat(last);
    if last.stage.FINISHED? { LengthWhenEnded(last); }
  }
}
