/**
 A single-elimination tournament (judge/arena/tournament.py): the rows of its matches, players moving forward, and
 what a running bracket always satisfies.
 */
module Bracket {
  import opened Common
  import opened Seeding

  type Player = nat

  /** The key of a match: its round and position, or the match for third place. */
  datatype Place = Main(round: nat, pos: nat) | Third

  datatype Status = PENDING | READY | CALLED | PLAYING | DECIDED

  datatype Reason = Undecided | Bye | Games | Walkover | Organizer

  datatype Entry = Entry(player: Player, seed: nat)

  datatype Row = Row(a: Option<Entry>, b: Option<Entry>, status: Status, winner: Option<Slot>, reason: Reason,
                     next: Option<Place>, nextSlot: Slot, loserNext: Option<Place>, loserSlot: Slot, played: bool)
  {
    function Of(slot: Slot): Option<Entry> {
      if slot.A? then a else b
    }

    function With(slot: Slot, e: Option<Entry>): Row {
      if slot.A? then this.(a := e) else this.(b := e)
    }

    predicate Both() {
      a.Some? && b.Some?
    }

    function Winner(): Option<Entry> {
      if winner.Some? then Of(winner.value) else None
    }

    function Loser(): Option<Entry> {
      if winner.Some? then Of(winner.value.Other()) else None
    }
  }

  datatype Stage = DRAFT | RUNNING | FINISHED

  datatype Bracket = Bracket(players: seq<Player>, rounds: nat, third: bool, rows: map<Place, Row>, stage: Stage)

  // ----------------------------------------------------------------------------------------- moving players

  /** _place(): a match that has been played refuses another player. */
  function Put(b: Bracket, target: Place, slot: Slot, e: Option<Entry>): Option<Bracket>
    requires target in b.rows
  {
    if b.rows[target].played then None
    else
      var row := b.rows[target].With(slot, e);
      var status := if row.Both() && row.status.PENDING? then READY
                    else if !row.Both() && row.status.READY? then PENDING
                    else row.status;
      Some(b.(rows := b.rows[target := row.(status := status)]))
  }

  predicate Ended(b: Bracket) {
    Main(b.rounds, 0) in b.rows && b.rows[Main(b.rounds, 0)].status.DECIDED? &&
    (Third in b.rows ==> b.rows[Third].status.DECIDED?)
  }

  /** _check_finished() */
  function CheckFinished(b: Bracket): Bracket {
    if b.stage.RUNNING? && Ended(b) then b.(stage := FINISHED) else b
  }

  /** advance(): the winner moves on, the loser of a semifinal to the match for third place. */
  function Advance(b: Bracket, at: Place): Option<Bracket>
    requires at in b.rows
    requires b.rows[at].next.Some? ==> b.rows[at].next.value in b.rows
    requires b.rows[at].loserNext.Some? ==> b.rows[at].loserNext.value in b.rows
  {
    var row := b.rows[at];
    if row.winner.None? then Some(b)
    else
      var first := if row.next.Some? then Put(b, row.next.value, row.nextSlot, row.Winner()) else Some(b);
      if first.None? then None
      else
        var second := if row.loserNext.Some? && row.Loser().Some?
                      then Put(first.value, row.loserNext.value, row.loserSlot, row.Loser())
                      else first;
        if second.None? then None else Some(CheckFinished(second.value))
  }

  predicate Linked(b: Bracket, at: Place) {
    at in b.rows &&
    (b.rows[at].next.Some? ==> b.rows[at].next.value in b.rows) &&
    (b.rows[at].loserNext.Some? ==> b.rows[at].loserNext.value in b.rows)
  }

  /** _decide_match(): the row of the match, then its players move on. None: an error undoes everything. */
  function Decide(b: Bracket, at: Place, slot: Slot, reason: Reason): Option<Bracket>
    requires Linked(b, at)
  {
    Advance(b.(rows := b.rows[at := b.rows[at].(status := DECIDED, winner := Some(slot), reason := reason)]), at)
  }

  predicate CanCorrect(b: Bracket, at: Place, slot: Slot)
    requires Linked(b, at)
  {
    var row := b.rows[at];
    row.status.DECIDED? && row.winner != Some(slot) && row.Of(slot).Some? &&
    (row.next.Some? ==> !b.rows[row.next.value].played) &&
    (row.loserNext.Some? ==> !b.rows[row.loserNext.value].played)
  }

  /** set_winner(): the winner of a decided match is corrected; a finished tournament is open again meanwhile. */
  function SetWinner(b: Bracket, at: Place, slot: Slot): Option<Bracket>
    requires Linked(b, at)
  {
    if !CanCorrect(b, at, slot) then None
    else
      var reason := if b.rows[at].reason.Walkover? then Walkover else Organizer;
      var row := b.rows[at].(winner := Some(slot), reason := reason);
      Advance(b.(rows := b.rows[at := row], stage := if b.stage.FINISHED? then RUNNING else b.stage), at)
  }

  // ------------------------------------------------------------------------------------ the shape of a bracket

  predicate IsPlace(b: Bracket, at: Place) {
    match at
    case Main(r, p) => 1 <= r <= b.rounds && p < Pow2(b.rounds - r)
    case Third => b.third
  }

  function SlotOf(pos: nat): Slot {
    if pos % 2 == 0 then A else B
  }

  function Offset(s: Slot): nat {
    if s.A? then 0 else 1
  }

  function NextOf(b: Bracket, at: Place): Option<Place> {
    if at.Main? && at.round < b.rounds then Some(Main(at.round + 1, at.pos / 2)) else None
  }

  function LoserNextOf(b: Bracket, at: Place): Option<Place> {
    if b.third && at.Main? && at.round + 1 == b.rounds then Some(Third) else None
  }

  /** The match that sends a player to this slot, if it is not of the first round. */
  function Feeder(b: Bracket, at: Place, s: Slot): Option<Place> {
    match at
    case Main(r, p) => if r > 1 then Some(Main(r - 1, 2 * p + Offset(s))) else None
    case Third => if b.rounds > 1 then Some(Main(b.rounds - 1, Offset(s))) else None
  }

  function Sent(b: Bracket, from: Place, to: Place): Option<Entry>
    requires from in b.rows
  {
    if to.Third? then b.rows[from].Loser() else b.rows[from].Winner()
  }

  /** Who starts in place i of the first round, by the seeding order. */
  function Seeded(b: Bracket, i: nat): Option<Entry> {
    if i < Pow2(b.rounds) && Order(b.rounds)[i] <= |b.players| then
      Some(Entry(b.players[Order(b.rounds)[i] - 1], Order(b.rounds)[i]))
    else None
  }

  // --------------------------------------------------------------------------------------- what always holds

  predicate LinksOk(b: Bracket, at: Place)
    requires at in b.rows
  {
    var row := b.rows[at];
    row.next == NextOf(b, at) && row.loserNext == LoserNextOf(b, at) &&
    (row.next.Some? ==> at.Main? && row.nextSlot == SlotOf(at.pos)) &&
    (row.loserNext.Some? ==> at.Main? && row.loserSlot == if at.pos == 0 then A else B)
  }

  predicate ShapeOk(row: Row, at: Place) {
    (row.winner.Some? <==> row.status.DECIDED?) &&
    (row.winner.Some? ==> row.Winner().Some?) &&
    (!row.status.DECIDED? ==> (row.Both() <==> !row.status.PENDING?)) &&
    (row.reason.Bye? <==> row.status.DECIDED? && !row.Both()) &&
    (!row.Both() && at.Main? && at.round == 1 ==> row.status.DECIDED?) &&
    (!row.Both() && row.status.DECIDED? ==> at.Main? && at.round == 1) &&
    (row.played ==> row.Both())
  }

  /** A slot of a later round holds whoever its feeding match sends: nobody while that match is undecided. */
  predicate SlotOk(b: Bracket, at: Place, s: Slot)
    requires at in b.rows
  {
    match Feeder(b, at, s)
    case None => at.Main? && b.rows[at].Of(s) == Seeded(b, 2 * at.pos + Offset(s))
    case Some(f) => f in b.rows && b.rows[at].Of(s) == Sent(b, f, at)
  }

  predicate RowOk(b: Bracket, at: Place)
    requires at in b.rows
  {
    LinksOk(b, at) && ShapeOk(b.rows[at], at) && SlotOk(b, at, A) && SlotOk(b, at, B)
  }

  predicate Sized(b: Bracket) {
    b.rounds >= 1 && Pow2(b.rounds - 1) < |b.players| <= Pow2(b.rounds) &&
    (forall i, j :: 0 <= i < j < |b.players| ==> b.players[i] != b.players[j]) &&
    (b.third ==> |b.players| >= 4)
  }

  predicate StageOk(b: Bracket) {
    match b.stage
    case DRAFT => forall at :: at in b.rows && b.rows[at].status.DECIDED? ==> b.rows[at].reason.Bye?
    case RUNNING => !Ended(b)
    case FINISHED => Ended(b)
  }

  ghost predicate Consistent(b: Bracket) {
    Sized(b) && (forall at :: at in b.rows <==> IsPlace(b, at)) &&
    forall at {:trigger RowOk(b, at)} :: at in b.rows ==> RowOk(b, at)
  }

  ghost predicate Good(b: Bracket) {
    Consistent(b) && StageOk(b)
  }

  // ------------------------------------------------------------------------------------------- basic facts

  lemma SizedRounds(b: Bracket)
    requires Sized(b)
    ensures |b.players| >= 2 && (b.third ==> b.rounds >= 2)
  {
    if b.rounds == 1 { assert Pow2(1) == 2; }
  }

  lemma FeederIsPlace(b: Bracket, at: Place, s: Slot)
    requires Sized(b) && IsPlace(b, at)
    ensures Feeder(b, at, s).Some? ==> IsPlace(b, Feeder(b, at, s).value)
    ensures Feeder(b, at, s).None? <==> at.Main? && at.round == 1
  {
    SizedRounds(b);
    if at.Third? { assert Pow2(1) == 2; }
  }

  /** A match is fed exactly through the links of the matches before it. */
  lemma FeederIsLink(b: Bracket, from: Place, to: Place, s: Slot)
    requires Sized(b) && IsPlace(b, from) && IsPlace(b, to)
    ensures Feeder(b, to, s) == Some(from) <==>
            from.Main? &&
            if to.Third? then LoserNextOf(b, from) == Some(Third) && s == (if from.pos == 0 then A else B)
            else NextOf(b, from) == Some(to) && s == SlotOf(from.pos)
  {
    SizedRounds(b);
    if from.Main? && b.third && from.round + 1 == b.rounds { assert Pow2(1) == 2; }
  }

  lemma LinksAreIn(b: Bracket, at: Place)
    requires Consistent(b) && at in b.rows
    ensures Linked(b, at) && b.rows[at].next == NextOf(b, at) && b.rows[at].loserNext == LoserNextOf(b, at)
  {
    assert RowOk(b, at) && IsPlace(b, at);
    if at.Main? && at.round < b.rounds {
      assert Pow2(b.rounds - at.round) == 2 * Pow2(b.rounds - at.round - 1);
      assert IsPlace(b, Main(at.round + 1, at.pos / 2));
    }
    if LoserNextOf(b, at).Some? { assert IsPlace(b, Third); }
  }

  /** With a match for third place, both semifinals are played. */
  lemma SemifinalsArePlayed(b: Bracket, pos: nat)
    requires Consistent(b) && b.third && pos < 2
    ensures b.rounds >= 2 && Main(b.rounds - 1, pos) in b.rows
    ensures var semi := b.rows[Main(b.rounds - 1, pos)]; semi.status.DECIDED? ==> semi.Both()
  {
    SizedRounds(b);
    assert Pow2(1) == 2;
    var at := Main(b.rounds - 1, pos);
    assert IsPlace(b, at);
    assert RowOk(b, at);
    if b.rounds == 2 {
      assert Pow2(2) == 4;
      assert Seeded(b, 2 * pos).Some? && Seeded(b, 2 * pos + 1).Some?;
    }
  }
}
