/** What deciding a match and correcting its winner record, and who goes where, slot by slot. */
module BracketRecords {
  import opened Common
  import opened Seeding
  import opened Bracket
  import opened BracketRuns
  import opened BracketFates
  import opened BracketBuild

  function PlayerIn(row: Row, slot: Slot): Option<Entry> {
    if slot.A? then row.a else row.b
  }

  /** Where the winner of a match goes: to slot a of the next match from an even place, else to slot b. */
  ghost predicate GoesOn(b: Bracket, b': Bracket, at: Place, e: Option<Entry>)
    requires at.Main?
  {
    var t := Main(at.round + 1, at.pos / 2);
    at.round < b.rounds ==>
      t in b.rows && t in b'.rows &&
      if at.pos % 2 == 0 then b'.rows[t].a == e && b'.rows[t].b == b.rows[t].b
      else b'.rows[t].b == e && b'.rows[t].a == b.rows[t].a
  }

  /** Where the loser of a semifinal goes. */
  ghost predicate GoesToThird(b: Bracket, b': Bracket, at: Place, e: Option<Entry>)
    requires at.Main?
  {
    b.third && at.round == b.rounds - 1 ==>
      Third in b.rows && Third in b'.rows &&
      if at.pos == 0 then b'.rows[Third].a == e && b'.rows[Third].b == b.rows[Third].b
      else b'.rows[Third].b == e && b'.rows[Third].a == b.rows[Third].a
  }

  /** Every match but the one it is about and the ones its players go to. */
  ghost predicate OthersStay(b: Bracket, b': Bracket, at: Place) {
    b'.rows.Keys == b.rows.Keys &&
    forall q :: q in b.rows && q != at && Some(q) != NextOf(b, at) && Some(q) != LoserNextOf(b, at) ==>
      b'.rows[q] == b.rows[q]
  }

  lemma MovesAre(b: Bracket, at: Place, row: Row)
    requires Resolves(b, at, row)
    ensures var b', slot := b.(rows := After(b, at, row)), row.winner.value;
            at in b'.rows && b'.rows[at] == row && OthersStay(b, b', at) &&
            (at.Main? ==>
              GoesOn(b, b', at, PlayerIn(b.rows[at], slot)) &&
              GoesToThird(b, b', at, PlayerIn(b.rows[at], slot.Other())))
  {
    hide After, Consistent, SlotOk;
    var b' := b.(rows := After(b, at, row));
    RowAfter(b, at, row, at);
    forall q | q in b.rows && q != at && Some(q) != NextOf(b, at) && Some(q) != LoserNextOf(b, at)
      ensures b'.rows[q] == b.rows[q]
    {
      RowAfter(b, at, row, q);
    }
    if row.next.Some? { RowAfter(b, at, row, row.next.value); }
    if row.loserNext.Some? { RowAfter(b, at, row, row.loserNext.value); }
  }

  /**
   Deciding a match for a slot records that slot, sends that player on and the other one, from a semifinal, to the match
   for third place; no other match changes.
   */
  lemma DecideSends(b: Bracket, at: Place, slot: Slot, reason: Reason)
    requires Good(b) && b.stage.RUNNING? && Open(b, at) && !reason.Bye?
    ensures Linked(b, at) && Decide(b, at, slot, reason).Some?
    ensures var b', row := Decide(b, at, slot, reason).value, b.rows[at];
            at in b'.rows && OthersStay(b, b', at) &&
            b'.rows[at] == row.(status := DECIDED, winner := Some(slot), reason := reason) &&
            (at.Main? ==>
              GoesOn(b, b', at, PlayerIn(row, slot)) && GoesToThird(b, b', at, PlayerIn(row, slot.Other())))
  {
    hide Consistent, After, OthersStay, GoesOn, GoesToThird, SafeTargets;
    var row := b.rows[at].(status := DECIDED, winner := Some(slot), reason := reason);
    DecideResolves(b, at, slot, reason);
    MovesAre(b, at, row);
    StageOnly(b, b.(rows := After(b, at, row)), Decide(b, at, slot, reason).value, at, slot);
  }

  /** A corrected match is for the other slot, whose player goes on instead; a walkover stays one. */
  lemma CorrectionSends(b: Bracket, at: Place, slot: Slot)
    requires Good(b) && at in b.rows && Linked(b, at) && CanCorrect(b, at, slot)
    ensures SetWinner(b, at, slot).Some?
    ensures var b', row := SetWinner(b, at, slot).value, b.rows[at];
            at in b'.rows && OthersStay(b, b', at) && row.winner == Some(slot.Other()) &&
            b'.rows[at] == row.(winner := Some(slot), reason := if row.reason.Walkover? then Walkover else Organizer) &&
            (at.Main? ==>
              GoesOn(b, b', at, PlayerIn(row, slot)) && GoesToThird(b, b', at, PlayerIn(row, slot.Other())))
  {
    hide Consistent, After, OthersStay, GoesOn, GoesToThird, CanCorrect;
    var row := Corrected(b.rows[at], slot);
    CorrectionResolves(b, at, slot);
    MovesAre(b, at, row);
    StageOnly(b, b.(rows := After(b, at, row)), SetWinner(b, at, slot).value, at, slot);
  }

  lemma StageOnly(b: Bracket, now: Bracket, b': Bracket, at: Place, slot: Slot)
    requires at in b.rows && b'.rows == now.rows
    ensures OthersStay(b, b', at) == OthersStay(b, now, at)
    ensures at.Main? ==>
              GoesOn(b, b', at, PlayerIn(b.rows[at], slot)) == GoesOn(b, now, at, PlayerIn(b.rows[at], slot)) &&
              GoesToThird(b, b', at, PlayerIn(b.rows[at], slot.Other()))
              == GoesToThird(b, now, at, PlayerIn(b.rows[at], slot.Other()))
  {}

  // --------------------------------------------------------------------------------------- what is refused

  /** A match of which a game was played takes nobody else; another takes them, and is ready exactly with both. */
  lemma PutsUnlessPlayed(b: Bracket, target: Place, slot: Slot, e: Option<Entry>)
    requires Consistent(b) && target in b.rows
    ensures Put(b, target, slot, e).None? <==> b.rows[target].played
    ensures Put(b, target, slot, e).Some? ==>
              var row, row' := b.rows[target], Put(b, target, slot, e).value.rows[target];
              Put(b, target, slot, e).value == b.(rows := b.rows[target := row']) &&
              row' == row.(a := row'.a, b := row'.b, status := row'.status) &&
              (if slot.A? then row'.a == e && row'.b == row.b else row'.b == e && row'.a == row.a) &&
              if row.status.PENDING? || row.status.READY?
              then row'.status == if row'.a.Some? && row'.b.Some? then READY else PENDING
              else row'.status == row.status
  {
    hide Consistent, SlotOk, LinksOk;
    RowParts(b, target, A);
  }

  /** A winner is corrected exactly in a decided match, to the other player, with no game of a match it feeds played. */
  lemma CorrectedExactlyWhen(b: Bracket, at: Place, slot: Slot)
    requires Good(b) && at in b.rows && Linked(b, at)
    ensures SetWinner(b, at, slot).Some? <==>
              b.rows[at].status.DECIDED? && b.rows[at].winner == Some(slot.Other()) &&
              b.rows[at].a.Some? && b.rows[at].b.Some? &&
              (NextOf(b, at).Some? ==> NextOf(b, at).value in b.rows && !b.rows[NextOf(b, at).value].played) &&
              (LoserNextOf(b, at).Some? ==>
                LoserNextOf(b, at).value in b.rows && !b.rows[LoserNextOf(b, at).value].played)
  {
    hide Consistent, SlotOk, Advance, Resolves, NextOf, LoserNextOf;
    LinksAreIn(b, at);
    RowParts(b, at, A);
    var row := b.rows[at];
    if CanCorrect(b, at, slot) {
      CorrectionResolves(b, at, slot);
    } else {
      assert row.status.DECIDED? ==> row.winner.Some?;
      assert row.winner == Some(slot.Other()) ==> row.winner != Some(slot);
    }
  }

  /** A tournament starts exactly once, as a draft that was built, and nothing else of it changes. */
  lemma StartsOnce(b: Bracket)
    ensures Started(b).Some? <==> b.stage.DRAFT? && b.rows != map[]
    ensures Started(b).Some? ==> Started(b).value == b.(stage := RUNNING) && Started(Started(b).value).None?
  {}
}
