/** Where the players of a bracket come from and what becomes of them; what correcting a winner can break. */
module BracketFates {
  import opened Common
  import opened Seeding
  import opened Bracket
  import opened BracketRuns

  // ------------------------------------------------------------------------------- who can be in which match

  lemma {:induction false} HalvingOnce(i: nat, d: nat)
    ensures BlockOf(i, d + 1) == BlockOf(i, d) / 2
  {
    if d > 0 { HalvingOnce(i / 2, d - 1); }
  }

  /** A participant with the seed they started with. */
  predicate Participant(b: Bracket, e: Entry) {
    1 <= e.seed <= |b.players| <= Pow2(b.rounds) && e.player == b.players[e.seed - 1]
  }

  /** The only slot of round r a participant can be in: their seat, halved once a round. */
  predicate Belongs(b: Bracket, e: Entry, r: nat, p: nat, s: Slot) {
    Participant(b, e) && r >= 1 && BlockOf(SeatOf(b.rounds, e.seed), r - 1) == 2 * p + Offset(s)
  }

  lemma {:induction false} Origin(b: Bracket, r: nat, p: nat, s: Slot)
    requires Consistent(b) && Main(r, p) in b.rows && b.rows[Main(r, p)].Of(s).Some?
    ensures Belongs(b, b.rows[Main(r, p)].Of(s).value, r, p, s)
    decreases r
  {
    hide RowOk, ShapeOk, LinksOk, Sized, Seeded, Order;
    var at := Main(r, p);
    RowParts(b, at, s);
    FeederIsPlace(b, at, s);
    if r == 1 {
      OriginSeed(b, 2 * p + Offset(s));
    } else {
      var f := Main(r - 1, 2 * p + Offset(s));
      assert Feeder(b, at, s) == Some(f);
      var t := b.rows[f].winner.value;
      Origin(b, r - 1, f.pos, t);
      HalvingOnce(SeatOf(b.rounds, b.rows[f].Of(t).value.seed), r - 2);
    }
  }

  lemma OriginSeed(b: Bracket, i: nat)
    requires Sized(b) && Seeded(b, i).Some?
    ensures Participant(b, Seeded(b, i).value) && SeatOf(b.rounds, Seeded(b, i).value.seed) == i
  {
    EverySeedOnce(b.rounds, Order(b.rounds)[i], i);
  }

  lemma OriginOfThird(b: Bracket, s: Slot)
    requires Consistent(b) && b.third && b.rows[Third].Of(s).Some?
    ensures Participant(b, b.rows[Third].Of(s).value)
    ensures b.rounds >= 2 && BlockOf(SeatOf(b.rounds, b.rows[Third].Of(s).value.seed), b.rounds - 1) == Offset(s)
  {
    FinalIsPlace(b);
    RowParts(b, Third, s);
    FeederIsPlace(b, Third, s);
    SizedRounds(b);
    var f := Main(b.rounds - 1, Offset(s));
    var t := b.rows[f].winner.value.Other();
    Origin(b, b.rounds - 1, Offset(s), t);
    HalvingOnce(SeatOf(b.rounds, b.rows[f].Of(t).value.seed), b.rounds - 2);
  }

  /** Nobody meets themselves. */
  lemma RivalsDiffer(b: Bracket, at: Place)
    requires Consistent(b) && at in b.rows && b.rows[at].Both()
    ensures b.rows[at].a != b.rows[at].b && b.rows[at].a.value.player != b.rows[at].b.value.player
  {
    RowParts(b, at, A);
    match at
    case Main(r, p) =>
      Origin(b, r, p, A);
      Origin(b, r, p, B);
    case Third =>
      OriginOfThird(b, A);
      OriginOfThird(b, B);
    var x, y := b.rows[at].a.value, b.rows[at].b.value;
    assert x.seed != y.seed;
    assert b.players[x.seed - 1] != b.players[y.seed - 1];
  }

  // ----------------------------------------------------------------------------------- correcting a winner

  function Corrected(row: Row, slot: Slot): Row {
    row.(winner := Some(slot), reason := if row.reason.Walkover? then Walkover else Organizer)
  }

  lemma CorrectionResolves(b: Bracket, at: Place, slot: Slot)
    requires Good(b) && at in b.rows && Linked(b, at) && CanCorrect(b, at, slot)
    ensures !b.stage.DRAFT? && b.rows[at].Both() && b.rows[at].winner == Some(slot.Other())
    ensures Resolves(b, at, Corrected(b.rows[at], slot))
    ensures SetWinner(b, at, slot)
            == Some(CheckFinished(b.(rows := After(b, at, Corrected(b.rows[at], slot)), stage := RUNNING)))
  {
    var row := Corrected(b.rows[at], slot);
    RowParts(b, at, A);
    LinksAreIn(b, at);
    AdvanceIs(b, at, row, RUNNING);
  }

  /** The next match gets the other player of the corrected one, and its own winner is the same slot as before. */
  lemma Exchanged(b: Bracket, at: Place, slot: Slot, t: Place)
    requires Good(b) && at in b.rows && Linked(b, at) && CanCorrect(b, at, slot)
    requires b.rows[at].next == Some(t)
    ensures t in b.rows && t in After(b, at, Corrected(b.rows[at], slot))
    ensures var row := After(b, at, Corrected(b.rows[at], slot))[t];
            row.winner == b.rows[t].winner && row.Of(b.rows[at].nextSlot) != b.rows[t].Of(b.rows[at].nextSlot)
  {
    hide After, Seeded, RowOk, Sized, ShapeOk, Feeder;
    var row := Corrected(b.rows[at], slot);
    CorrectionResolves(b, at, slot);
    RivalsDiffer(b, at);
    RowAfter(b, at, row, t);
    RowParts(b, at, A);
    RowParts(b, t, b.rows[at].nextSlot);
    FeederIsLink(b, at, t, b.rows[at].nextSlot);
  }

  /** The players of a match already decided one round later: the one it sent on before is still there. */
  lemma BrokenLink(b: Bracket, at: Place, slot: Slot, t: Place, q: Place, s: Slot)
    requires Good(b) && at in b.rows && Linked(b, at) && CanCorrect(b, at, slot)
    requires b.rows[at].next == Some(t) && t in b.rows && q in b.rows && Feeder(b, q, s) == Some(t)
    requires b.rows[t].winner.Some?
    requires b.rows[t].winner == Some(b.rows[at].nextSlot) <==> q.Main?
    ensures !SlotOk(b.(rows := After(b, at, Corrected(b.rows[at], slot)), stage := RUNNING), q, s)
  {
    hide After, Seeded, RowOk, Sized, ShapeOk, LinksOk, Feeder, IsPlace, Linked, CanCorrect;
    var row := Corrected(b.rows[at], slot);
    NotItself(b, at, t);
    CorrectionResolves(b, at, slot);
    Exchanged(b, at, slot, t);
    OfAfter(b, at, row, q, s);
    RowParts(b, q, s);
    SlotAlike(b, b.(rows := After(b, at, row), stage := RUNNING), q, s);
  }

  lemma NotItself(b: Bracket, at: Place, t: Place)
    requires Consistent(b) && at in b.rows && b.rows[at].next == Some(t)
    ensures at != t
  {
    RowParts(b, at, A);
  }

  /**
   A corrected winner leaves the bracket consistent exactly when the match it feeds next is still undecided, or sends
   nobody on from the corrected slot.
   */
  lemma CorrectionKeepsGood(b: Bracket, at: Place, slot: Slot)
    requires Good(b) && at in b.rows && Linked(b, at) && CanCorrect(b, at, slot)
    ensures SetWinner(b, at, slot).Some?
    ensures Good(SetWinner(b, at, slot).value) <==> SafeTargets(b, Corrected(b.rows[at], slot))
    ensures SafeTargets(b, Corrected(b.rows[at], slot)) ==> SetWinner(b, at, slot).value.stage == b.stage
  {
    var row := Corrected(b.rows[at], slot);
    CorrectionResolves(b, at, slot);
    RowAfter(b, at, row, at);
    var rows := After(b, at, row);
    if SafeTargets(b, row) {
      ResolveKeepsConsistent(b, at, row);
      OnlyStage(b.(rows := rows), RUNNING);
      CheckKeepsGood(b.(rows := rows, stage := RUNNING));
      SameDecided(b, at, row);
    } else {
      UnsafeBreaks(b, at, slot);
    }
  }

  lemma SameDecided(b: Bracket, at: Place, row: Row)
    requires Good(b) && Resolves(b, at, row) && b.rows[at].status.DECIDED? && !b.stage.DRAFT?
    ensures Ended(b.(rows := After(b, at, row), stage := RUNNING)) <==> b.stage.FINISHED?
  {
    DecidedAfter(b, at, row, Main(b.rounds, 0));
    DecidedAfter(b, at, row, Third);
  }

  lemma UnsafeBreaks(b: Bracket, at: Place, slot: Slot)
    requires Good(b) && at in b.rows && Linked(b, at) && CanCorrect(b, at, slot)
    requires !SafeTargets(b, Corrected(b.rows[at], slot))
    ensures !Good(SetWinner(b, at, slot).value)
  {
    var row := Corrected(b.rows[at], slot);
    CorrectionResolves(b, at, slot);
    RowAfter(b, at, row, at);
    if row.loserNext.Some? { RowParts(b, Third, A); }
    assert row.next.Some? && !Harmless(b.rows[row.next.value], row.nextSlot);
    var t := row.next.value;
    RowParts(b, t, A);
    LinksAreIn(b, t);
    var q := if b.rows[t].winner == Some(row.nextSlot) then b.rows[t].next.value else Third;
    var s := if q.Third? then (if t.pos == 0 then A else B) else SlotOf(t.pos);
    FeederIsLink(b, t, q, s);
    BrokenLink(b, at, slot, t, q, s);
    var b' := b.(rows := After(b, at, row), stage := RUNNING);
    if Consistent(CheckFinished(b')) {
      OnlyStage(CheckFinished(b'), RUNNING);
      assert CheckFinished(b').(stage := RUNNING) == b';
      RowAfter(b, at, row, q);
      RowParts(b', q, s);
    }
  }

  /**
   Such a correction is accepted.  Whenever the next match is decided by walkover for the winner of this one, before any
   game of it, the winner of this one can still be corrected, and a later round keeps a player who is out.
   */
  lemma WalkoverThenCorrection(b: Bracket, at: Place, slot: Slot, t: Place, b': Bracket)
    requires Good(b) && b.stage.RUNNING? && Decided(b, at) && b.rows[at].Both() &&
             b.rows[at].winner == Some(slot.Other())
    requires b.rows[at].next == Some(t) && Open(b, t) && !b.rows[t].played && b.rows[t].next.Some? && Linked(b, t)
    requires Decide(b, t, b.rows[at].nextSlot, Walkover) == Some(b')
    ensures Good(b') && Linked(b', at) && CanCorrect(b', at, slot)
    ensures SetWinner(b', at, slot).Some? && !Good(SetWinner(b', at, slot).value)
  {
    hide RowOk, SlotOk, ShapeOk, Sized, After, Resolution;
    DecideKeepsGood(b, t, b.rows[at].nextSlot, Walkover);
    DecideResolves(b, t, b.rows[at].nextSlot, Walkover);
    var row := b.rows[t].(status := DECIDED, winner := Some(b.rows[at].nextSlot), reason := Walkover);
    RowAfter(b, t, row, at);
    RowAfter(b, t, row, t);
    LinksAreIn(b, at);
    LinksAreIn(b, t);
    RowParts(b, at, A);
    LinksAreIn(b', at);
    assert t == Main(at.round + 1, at.pos / 2) && t.round < b.rounds;
    CorrectionKeepsGood(b', at, slot);
  }
}
