/** What deciding a match and correcting a winner do to a bracket, and what every run keeps. */
module BracketRuns {
  import opened Common
  import opened Seeding
  import opened Bracket

  // ----------------------------------------------------------------------- the rows after a match is resolved

  function Fill(row: Row, slot: Slot, e: Option<Entry>): Row {
    var filled := row.With(slot, e);
    filled.(status := if filled.Both() && filled.status.PENDING? then READY
                      else if !filled.Both() && filled.status.READY? then PENDING
                      else filled.status)
  }

  predicate Resolution(row: Row, row': Row, slot: Slot) {
    row' == row.(status := DECIDED, winner := Some(slot), reason := row'.reason) && !row'.reason.Bye? && row.Both()
  }

  function After(b: Bracket, at: Place, row: Row): map<Place, Row> {
    var m := b.rows[at := row];
    var m' := if row.next.Some? && row.next.value in m
              then m[row.next.value := Fill(m[row.next.value], row.nextSlot, row.Winner())] else m;
    if row.loserNext.Some? && row.Loser().Some? && row.loserNext.value in m' then
      m'[row.loserNext.value := Fill(m'[row.loserNext.value], row.loserSlot, row.Loser())]
    else m'
  }

  lemma AdvanceIs(b: Bracket, at: Place, row: Row, stage: Stage)
    requires Consistent(b) && at in b.rows && row.next == b.rows[at].next && row.loserNext == b.rows[at].loserNext
    requires row.winner.Some? && row.played == b.rows[at].played
    requires row.next.Some? ==> row.next.value in b.rows && !b.rows[row.next.value].played
    requires row.loserNext.Some? ==> row.loserNext.value in b.rows && !b.rows[row.loserNext.value].played
    ensures Advance(b.(rows := b.rows[at := row], stage := stage), at)
            == Some(CheckFinished(b.(rows := After(b, at, row), stage := stage)))
  {
    LinksAreIn(b, at);
  }

  ghost predicate Resolves(b: Bracket, at: Place, row: Row) {
    Consistent(b) && at in b.rows && row.winner.Some? && Resolution(b.rows[at], row, row.winner.value)
  }

  lemma RowParts(b: Bracket, at: Place, s: Slot)
    requires Consistent(b) && at in b.rows
    ensures IsPlace(b, at) && LinksOk(b, at) && ShapeOk(b.rows[at], at) && SlotOk(b, at, s)
  {
    assert RowOk(b, at);
  }

  /** Row by row: the match itself, the slots it fills, and everything else as it was. */
  lemma RowAfter(b: Bracket, at: Place, row: Row, q: Place)
    requires Resolves(b, at, row) && q in b.rows
    ensures row.next == NextOf(b, at) && row.loserNext == LoserNextOf(b, at)
    ensures row.next.Some? ==> row.next.value in b.rows && row.nextSlot == SlotOf(at.pos)
    ensures row.loserNext.Some? ==> row.loserNext.value in b.rows && row.loserSlot == if at.pos == 0 then A else B
    ensures row.Winner().Some? && row.Loser().Some? && After(b, at, row).Keys == b.rows.Keys
    ensures After(b, at, row)[q]
            == if q == at then row
               else if Some(q) == row.next then Fill(b.rows[q], row.nextSlot, row.Winner())
               else if Some(q) == row.loserNext then Fill(b.rows[q], row.loserSlot, row.Loser())
               else b.rows[q]
  {
    LinksAreIn(b, at);
    RowParts(b, at, A);
    hide SlotOk, Consistent;
  }

  /** A target whose new player cannot contradict what it already sent on: undecided, or it sends that slot nowhere. */
  predicate Harmless(target: Row, slot: Slot) {
    target.winner.None? ||
    (if target.winner == Some(slot) then target.next.None? else target.loserNext.None?)
  }

  predicate SafeTargets(b: Bracket, row: Row) {
    (row.next.Some? ==> row.next.value in b.rows && Harmless(b.rows[row.next.value], row.nextSlot)) &&
    (row.loserNext.Some? ==> row.loserNext.value in b.rows && Harmless(b.rows[row.loserNext.value], row.loserSlot))
  }

  lemma FillKeepsSent(row: Row, slot: Slot, e: Option<Entry>)
    requires Harmless(row, slot)
    ensures row.next.Some? ==> Fill(row, slot, e).Winner() == row.Winner()
    ensures row.loserNext.Some? ==> Fill(row, slot, e).Loser() == row.Loser()
  {}

  /** What the feeder of a slot sends is the same as before, unless it is the resolved match itself. */
  lemma SentAfter(b: Bracket, at: Place, row: Row, f: Place, q: Place, s: Slot)
    requires Resolves(b, at, row) && SafeTargets(b, row) && f in b.rows && q in b.rows && f != at
    requires Feeder(b, q, s) == Some(f)
    ensures f in After(b, at, row) && Sent(b.(rows := After(b, at, row)), f, q) == Sent(b, f, q)
  {
    hide SlotOk, ShapeOk, RowOk, Feeder, Fill, Harmless, After, Resolution, Sized, IsPlace;
    RowAfter(b, at, row, f);
    RowParts(b, q, A);
    RowParts(b, f, A);
    FeederIsLink(b, f, q, s);
    if Some(f) == row.next { FillKeepsSent(b.rows[f], row.nextSlot, row.Winner()); }
  }

  /** A slot after another match was resolved: it holds who that match sends there, or who it held before. */
  lemma OfAfter(b: Bracket, at: Place, row: Row, q: Place, s: Slot)
    requires Resolves(b, at, row) && q in b.rows
    ensures q in After(b, at, row)
    ensures After(b, at, row)[q].Of(s)
            == if Feeder(b, q, s) == Some(at) then (if q.Third? then row.Loser() else row.Winner()) else b.rows[q].Of(s)
  {
    hide SlotOk, ShapeOk, RowOk, Feeder, After, Sized, IsPlace;
    RowAfter(b, at, row, q);
    RowParts(b, at, s);
    RowParts(b, q, s);
    FeederIsLink(b, at, q, s);
  }

  /** The slots of a match after another was resolved: the ones it feeds hold its players, the others do not change. */
  lemma SlotAfter(b: Bracket, at: Place, row: Row, q: Place, s: Slot)
    requires Resolves(b, at, row) && SafeTargets(b, row) && q in b.rows
    ensures q in After(b, at, row) && SlotOk(b.(rows := After(b, at, row)), q, s)
  {
    hide After, ShapeOk, LinksOk, Seeded, Sized, SafeTargets, RowOk, Feeder, Resolution, Consistent, IsPlace;
    OfAfter(b, at, row, q, s);
    RowAfter(b, at, row, at);
    PartsThere(b, at, row, q, s);
    if Feeder(b, q, s).Some? && Feeder(b, q, s) != Some(at) {
      SentAfter(b, at, row, Feeder(b, q, s).value, q, s);
    }
    SlotAlike(b, b.(rows := After(b, at, row)), q, s);
  }

  lemma PartsThere(b: Bracket, at: Place, row: Row, q: Place, s: Slot)
    requires Resolves(b, at, row) && q in b.rows
    ensures SlotOk(b, q, s) && at in b.rows && row.winner.Some?
  {
    RowParts(b, q, s);
  }

  lemma SlotAlike(b: Bracket, b': Bracket, q: Place, s: Slot)
    requires b'.players == b.players && b'.rounds == b.rounds
    ensures Feeder(b', q, s) == Feeder(b, q, s)
    ensures q.Main? ==> Seeded(b', 2 * q.pos + Offset(s)) == Seeded(b, 2 * q.pos + Offset(s))
  {}

  lemma FillKeepsShape(row: Row, slot: Slot, e: Option<Entry>, q: Place)
    requires ShapeOk(row, q) && e.Some? && (q.Main? ==> q.round > 1)
    ensures ShapeOk(Fill(row, slot, e), q)
  {}

  lemma LinksAfter(b: Bracket, at: Place, row: Row, q: Place)
    requires Resolves(b, at, row) && q in b.rows
    ensures q in After(b, at, row) && LinksOk(b.(rows := After(b, at, row)), q)
  {
    hide SlotOk, ShapeOk, After, RowOk, Sized, IsPlace;
    RowAfter(b, at, row, q);
    RowParts(b, q, A);
  }

  lemma ShapeAfter(b: Bracket, at: Place, row: Row, q: Place)
    requires Resolves(b, at, row) && q in b.rows
    ensures q in After(b, at, row)
    ensures ShapeOk(After(b, at, row)[q], q) && LinksOk(b.(rows := After(b, at, row)), q)
  {
    hide SlotOk, LinksOk, After, RowOk, Sized, IsPlace, Fill;
    LinksAfter(b, at, row, q);
    RowAfter(b, at, row, q);
    RowParts(b, q, A);
    RowParts(b, at, A);
    if q == at {
    } else if Some(q) == row.next {
      FillKeepsShape(b.rows[q], row.nextSlot, row.Winner(), q);
    } else if Some(q) == row.loserNext {
      FillKeepsShape(b.rows[q], row.loserSlot, row.Loser(), q);
    }
  }

  lemma Reassemble(b: Bracket, b': Bracket)
    requires Consistent(b) && b' == b.(rows := b'.rows, stage := b'.stage) && b'.rows.Keys == b.rows.Keys
    requires forall q {:trigger RowOk(b', q)} :: q in b'.rows ==> RowOk(b', q)
    ensures Consistent(b')
  {
    hide RowOk;
    forall q ensures q in b'.rows <==> IsPlace(b', q) {
      assert IsPlace(b', q) == IsPlace(b, q);
      assert q in b.rows <==> q in b'.rows;
    }
  }

  lemma ResolveKeepsConsistent(b: Bracket, at: Place, row: Row)
    requires Resolves(b, at, row) && SafeTargets(b, row)
    ensures Consistent(b.(rows := After(b, at, row)))
  {
    RowAfter(b, at, row, at);
    var rows := After(b, at, row);
    forall q | q in rows ensures RowOk(b.(rows := rows), q) {
      ShapeAfter(b, at, row, q);
      SlotAfter(b, at, row, q, A);
      SlotAfter(b, at, row, q, B);
      hide ShapeOk, LinksOk, SlotOk, After, Consistent, SafeTargets;
    }
    hide RowOk, After;
    Reassemble(b, b.(rows := rows));
  }

  // ------------------------------------------------------------------------------------- deciding a match

  /** A match that can be decided: both its players are known and nobody won it yet. */
  predicate Open(b: Bracket, at: Place) {
    at in b.rows && !b.rows[at].status.DECIDED? && b.rows[at].Both()
  }

  /** While a match is undecided, whatever it feeds still waits for a player. */
  lemma TargetsWait(b: Bracket, at: Place, target: Place)
    requires Consistent(b) && at in b.rows && !b.rows[at].status.DECIDED?
    requires Some(target) == b.rows[at].next || Some(target) == b.rows[at].loserNext
    ensures target in b.rows && !b.rows[target].Both() && !b.rows[target].played && b.rows[target].winner.None?
  {
    LinksAreIn(b, at);
    var s := if target.Third? then (if at.pos == 0 then A else B) else SlotOf(at.pos);
    RowParts(b, at, A);
    RowParts(b, target, s);
    FeederIsLink(b, at, target, s);
    assert b.rows[target].Of(s).None?;
  }

  ghost predicate Decided(b: Bracket, at: Place) {
    at in b.rows && b.rows[at].status.DECIDED?
  }

  lemma DecideResolves(b: Bracket, at: Place, slot: Slot, reason: Reason)
    requires Consistent(b) && Open(b, at) && !reason.Bye?
    ensures var row := b.rows[at].(status := DECIDED, winner := Some(slot), reason := reason);
            Resolves(b, at, row) && SafeTargets(b, row) && Linked(b, at) &&
            Decide(b, at, slot, reason) == Some(CheckFinished(b.(rows := After(b, at, row))))
  {
    var row := b.rows[at].(status := DECIDED, winner := Some(slot), reason := reason);
    LinksAreIn(b, at);
    if row.next.Some? { TargetsWait(b, at, row.next.value); }
    if row.loserNext.Some? { TargetsWait(b, at, row.loserNext.value); }
    AdvanceIs(b, at, row, b.stage);
  }

  /** Which matches are decided after one is resolved: the same and that one; nothing else about them changes. */
  lemma DecidedAfter(b: Bracket, at: Place, row: Row, q: Place)
    requires Resolves(b, at, row)
    ensures Decided(b.(rows := After(b, at, row)), q) <==> Decided(b, q) || q == at
    ensures q in After(b, at, row) <==> q in b.rows
    ensures q in b.rows && q != at ==>
              After(b, at, row)[q].reason == b.rows[q].reason && After(b, at, row)[q].winner == b.rows[q].winner
  {
    hide After, Consistent;
    RowAfter(b, at, row, at);
    if q in b.rows { RowAfter(b, at, row, q); }
  }

  lemma FinalIsPlace(b: Bracket)
    requires Consistent(b)
    ensures Main(b.rounds, 0) in b.rows && b.rows[Main(b.rounds, 0)].next.None? && (Third in b.rows <==> b.third)
    ensures Decided(b, Main(b.rounds, 0)) ==> b.rows[Main(b.rounds, 0)].Both()
  {
    assert IsPlace(b, Main(b.rounds, 0));
    assert Third in b.rows <==> IsPlace(b, Third);
    RowParts(b, Main(b.rounds, 0), A);
    RowParts(b, Main(b.rounds, 0), B);
    SizedRounds(b);
    if b.rounds == 1 {
      assert Pow2(1) == 2;
      assert Seeded(b, 0).Some? && Seeded(b, 1).Some?;
    }
  }

  lemma CheckKeepsGood(b: Bracket)
    requires Consistent(b) && b.stage.RUNNING?
    ensures Good(CheckFinished(b)) && CheckFinished(b).rows == b.rows
    ensures CheckFinished(b).stage.FINISHED? <==> Ended(b)
  {
    OnlyStage(b, CheckFinished(b).stage);
  }

  lemma OnlyStageRow(b: Bracket, stage: Stage, q: Place)
    requires Consistent(b) && q in b.rows
    ensures RowOk(b.(stage := stage), q)
  {
    RowParts(b, q, A);
    RowParts(b, q, B);
    SlotAlike(b, b.(stage := stage), q, A);
    SlotAlike(b, b.(stage := stage), q, B);
    hide ShapeOk, Consistent, Seeded, Feeder;
  }

  lemma OnlyStage(b: Bracket, stage: Stage)
    requires Consistent(b)
    ensures Consistent(b.(stage := stage))
  {
    forall q {:trigger RowOk(b.(stage := stage), q)} | q in b.rows ensures RowOk(b.(stage := stage), q) {
      OnlyStageRow(b, stage, q);
    }
    hide RowOk;
    Reassemble(b, b.(stage := stage));
  }

  /** Deciding a match never fails and keeps the bracket consistent; it ends exactly with the last match. */
  lemma DecideKeepsGood(b: Bracket, at: Place, slot: Slot, reason: Reason)
    requires Good(b) && b.stage.RUNNING? && Open(b, at) && !reason.Bye?
    ensures Linked(b, at) && Decide(b, at, slot, reason).Some?
    ensures var b' := Decide(b, at, slot, reason).value;
            Good(b') && b'.players == b.players && b'.rounds == b.rounds && b'.third == b.third &&
            !b'.stage.DRAFT? && forall q :: Decided(b', q) <==> Decided(b, q) || q == at
  {
    var row := b.rows[at].(status := DECIDED, winner := Some(slot), reason := reason);
    DecideResolves(b, at, slot, reason);
    ResolveKeepsConsistent(b, at, row);
    var b' := b.(rows := After(b, at, row));
    CheckKeepsGood(b');
    forall q ensures Decided(CheckFinished(b'), q) <==> Decided(b, q) || q == at {
      DecidedAfter(b, at, row, q);
    }
  }

  // -------------------------------------------------------------------------------------------- no deadlock

  /** Somewhere under an undecided match there is one that can be decided now. */
  lemma {:induction false} SomethingOpenUnder(b: Bracket, r: nat, p: nat) returns (at: Place)
    requires Consistent(b) && Main(r, p) in b.rows && !Decided(b, Main(r, p))
    ensures Open(b, at)
    decreases r
  {
    at := Main(r, p);
    if !b.rows[at].Both() {
      var s := if b.rows[at].a.None? then A else B;
      RowParts(b, at, s);
      FeederIsPlace(b, at, s);
      var f := Feeder(b, at, s).value;
      RowParts(b, f, A);
      assert !Decided(b, f);
      at := SomethingOpenUnder(b, f.round, f.pos);
    }
  }

  /** A running tournament never gets stuck: some undecided match has both its players. */
  lemma NeverStuck(b: Bracket) returns (at: Place)
    requires Good(b) && b.stage.RUNNING?
    ensures Open(b, at)
  {
    FinalIsPlace(b);
    if !Decided(b, Main(b.rounds, 0)) {
      at := SomethingOpenUnder(b, b.rounds, 0);
    } else {
      at := Third;
      RowParts(b, Main(b.rounds, 0), A);
      RowParts(b, Main(b.rounds, 0), B);
      SemifinalsArePlayed(b, 0);
      SemifinalsArePlayed(b, 1);
      RowParts(b, Third, A);
      RowParts(b, Third, B);
      RowParts(b, Main(b.rounds - 1, 0), A);
      RowParts(b, Main(b.rounds - 1, 1), A);
      assert Feeder(b, Main(b.rounds, 0), A) == Some(Main(b.rounds - 1, 0));
      assert Feeder(b, Main(b.rounds, 0), B) == Some(Main(b.rounds - 1, 1));
    }
  }
}
