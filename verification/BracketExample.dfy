/** A bracket without byes, and one of eight players that a walkover and a correction break. */
module BracketExample {
  import opened Common
  import opened Seeding
  import opened Bracket
  import opened BracketRuns
  import opened BracketFates
  import opened BracketLength
  import opened BracketBuild

  /** As many participants as places, and no match for third place. */
  ghost function FullBracket(players: seq<Player>, rounds: nat): Bracket {
    var empty := Bracket(players, rounds, false, map[], DRAFT);
    empty.(rows := map at | at in Levels(rounds, rounds) :: SeededRow(empty, at))
  }

  ghost predicate Fills(players: seq<Player>, rounds: nat) {
    rounds >= 1 && |players| == Pow2(rounds) && forall i, j :: 0 <= i < j < |players| ==> players[i] != players[j]
  }

  lemma FullPlaces(players: seq<Player>, rounds: nat)
    ensures var b := FullBracket(players, rounds); forall at :: at in b.rows <==> IsPlace(b, at)
  {
    hide SeededRow, Pow2;
    var b := FullBracket(players, rounds);
    forall at ensures at in b.rows <==> IsPlace(b, at) { LevelsHold(rounds, rounds, at); }
  }

  lemma FullRows(players: seq<Player>, rounds: nat)
    ensures var b := FullBracket(players, rounds); forall at :: at in b.rows ==> b.rows[at] == SeededRow(b, at)
  {
    hide SeededRow, Pow2, Levels;
    var b, empty := FullBracket(players, rounds), Bracket(players, rounds, false, map[], DRAFT);
    forall at | at in b.rows ensures b.rows[at] == SeededRow(b, at) { RowsAlike(empty, b, at); }
  }

  lemma FullSized(players: seq<Player>, rounds: nat)
    requires Fills(players, rounds)
    ensures Sized(FullBracket(players, rounds)) && FullBracket(players, rounds).rounds == rounds
  {
    assert Pow2(rounds) == 2 * Pow2(rounds - 1);
    hide Pow2, SeededRow;
  }

  lemma FullSeeded(players: seq<Player>, rounds: nat)
    requires Fills(players, rounds)
    ensures Building(FullBracket(players, rounds), 0)
  {
    hide SeededRow, EmptyRow, IsPlace, FullBracket, Sized, Pow2, StepRow;
    var b := FullBracket(players, rounds);
    FullPlaces(players, rounds);
    FullRows(players, rounds);
    FullSized(players, rounds);
    SeededOf(b);
    SeededIsBuilding(b);
  }

  lemma SeededOf(b: Bracket)
    requires b.rounds >= 1 && forall at :: at in b.rows <==> IsPlace(b, at)
    requires forall at :: at in b.rows ==> b.rows[at] == SeededRow(b, at)
    ensures SeededUpTo(b, Pow2(b.rounds - 1))
  {
    hide EmptyRow, Pow2, Order, Seeded;
    forall at: Place | at in b.rows && !(at.Main? && at.round == 1 && at.pos < Pow2(b.rounds - 1))
      ensures b.rows[at] == EmptyRow(b, at)
    {
      assert IsPlace(b, at);
    }
  }

  lemma {:induction false} NoByes(b: Bracket, k: nat)
    requires Building(b, 0) && b.stage.DRAFT? && |b.players| == Pow2(b.rounds) && k <= Pow2(b.rounds - 1)
    ensures Building(b, k)
  {
    hide Building, Order;
    if k > 0 {
      NoByes(b, k - 1);
      ByeStep(b, k - 1);
      FullMatch(b, k - 1);
    }
  }

  lemma FullMatch(b: Bracket, k: nat)
    requires Building(b, k) && |b.players| == Pow2(b.rounds) && k < Pow2(b.rounds - 1)
    ensures Main(1, k) in b.rows && !b.rows[Main(1, k)].status.PENDING?
  {
    ByeIs(b, k);
    StepParts(b, Main(1, k), k, B);
    assert 2 * k + 1 < Pow2(b.rounds);
    hide Order;
  }

  /** A tournament with no byes that has just started: nothing decided, and its first round can be played. */
  lemma FullStarts(players: seq<Player>, rounds: nat)
    requires Fills(players, rounds)
    ensures var b := FullBracket(players, rounds).(stage := RUNNING);
            Good(b) && Played(b) == {} && (forall at :: at in b.rows ==> !b.rows[at].played) &&
            forall p :: 0 <= p < Pow2(rounds - 1) ==> Open(b, Main(1, p))
  {
    hide Building, Order;
    var draft := FullBracket(players, rounds);
    FullSeeded(players, rounds);
    NoByes(draft, Pow2(rounds - 1));
    BuiltIsGood(draft, Pow2(rounds - 1));
    StartKeepsGood(draft);
    forall p | 0 <= p < Pow2(rounds - 1) ensures Open(draft, Main(1, p)) {
      NoByes(draft, p);
      FullMatch(draft, p);
      FullIsOpen(draft, p);
    }
  }

  lemma FullIsOpen(b: Bracket, p: nat)
    requires Building(b, p) && |b.players| == Pow2(b.rounds) && p < Pow2(b.rounds - 1)
    requires Main(1, p) in b.rows && !b.rows[Main(1, p)].status.PENDING?
    ensures Open(b, Main(1, p))
  {
    ByeIs(b, p);
    hide Order;
  }

  /** Three rounds for eight players, underway, and no game of it has been played. */
  ghost predicate Unplayed(b: Bracket) {
    Good(b) && b.stage.RUNNING? && b.rounds == 3 && |b.players| == 8 && !b.third &&
    forall at :: at in b.rows ==> !b.rows[at].played
  }

  lemma FirstWin(b: Bracket, p: nat) returns (b': Bracket)
    requires Unplayed(b) && Open(b, Main(1, p))
    ensures Linked(b, Main(1, p)) && Decide(b, Main(1, p), A, Games) == Some(b')
    ensures Unplayed(b') && b'.players == b.players && Played(b') == Played(b) + {Main(1, p)}
    ensures Main(1, p) in b'.rows && b'.rows[Main(1, p)].winner == Some(A)
    ensures forall q: Place :: q in b.rows && q.Main? && q.round == 1 && q != Main(1, p) ==>
              q in b'.rows && b'.rows[q] == b.rows[q]
  {
    hide SlotOk, ShapeOk, Sized, Order, Pow2, After, RowOk;
    var at := Main(1, p);
    var row := b.rows[at].(status := DECIDED, winner := Some(A), reason := Games);
    DecideKeepsGood(b, at, A, Games);
    DecideResolves(b, at, A, Games);
    WinCounts(b, at, row);
    b' := Decide(b, at, A, Games).value;
    FinalIsPlace(b);
    FinalIsPlace(b');
    assert Decided(b', Main(3, 0)) <==> Decided(b, Main(3, 0));
    RowAfter(b, at, row, at);
    forall q | q in b'.rows
      ensures q in b.rows && !b'.rows[q].played
      ensures q.Main? && q.round == 1 && q != at ==> b'.rows[q] == b.rows[q]
    {
      RowAfter(b, at, row, q);
    }
  }

  lemma SecondOpen(b: Bracket)
    requires Unplayed(b) && Main(1, 0) in Played(b) && Main(1, 1) in Played(b) && Main(2, 0) !in Played(b)
    ensures Open(b, Main(2, 0)) && b.rows[Main(2, 0)].next == Some(Main(3, 0))
    ensures b.rows[Main(1, 0)].Both() && b.rows[Main(1, 0)].next == Some(Main(2, 0))
    ensures b.rows[Main(1, 0)].nextSlot == A && Linked(b, Main(2, 0))
  {
    hide Order, Sized, Seeded;
    assert Pow2(1) == 2;
    assert IsPlace(b, Main(2, 0));
    RowParts(b, Main(2, 0), A);
    RowParts(b, Main(2, 0), B);
    RowParts(b, Main(1, 0), A);
    RowParts(b, Main(1, 1), A);
    LinksAreIn(b, Main(2, 0));
  }

  lemma FullStart(players: seq<Player>) returns (b: Bracket)
    requires Fills(players, 3)
    ensures Unplayed(b) && b.players == players && Played(b) == {} && Open(b, Main(1, 0)) && Open(b, Main(1, 1))
  {
    hide Good, Open;
    assert Pow2(1) == 2 && Pow2(2) == 4 && Pow2(3) == 8;
    b := FullBracket(players, 3).(stage := RUNNING);
    FullStarts(players, 3);
  }

  /**
   Eight players.  The first two matches are won by a, then the next match is given to the winner of the first one by
   walkover; the first match can still be corrected, and that breaks the bracket.
   */
  lemma WalkoverHappens(players: seq<Player>) returns (b: Bracket, b': Bracket)
    requires Fills(players, 3)
    ensures Good(b) && b.stage.RUNNING? && b.players == players && Played(b) == {Main(1, 0), Main(1, 1)}
    ensures Linked(b, Main(2, 0)) && Open(b, Main(2, 0)) && Decide(b, Main(2, 0), A, Walkover) == Some(b')
    ensures Good(b') && Linked(b', Main(1, 0)) && CanCorrect(b', Main(1, 0), B)
    ensures SetWinner(b', Main(1, 0), B).Some? && !Good(SetWinner(b', Main(1, 0), B).value)
  {
    hide Good, Order, FullBracket, Pow2, Advance, CanCorrect, SetWinner, Linked;
    var start := FullStart(players);
    var first := FirstWin(start, 0);
    var second := FirstWin(first, 1);
    b := second;
    SecondOpen(b);
    DecideKeepsGood(b, Main(2, 0), A, Walkover);
    b' := Decide(b, Main(2, 0), A, Walkover).value;
    WalkoverThenCorrection(b, Main(1, 0), B, Main(2, 0), b');
  }
}
