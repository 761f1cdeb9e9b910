/** What the rows of a bracket are while it is being built, and that the finished draft is a consistent bracket. */
module BracketBuild {
  import opened Common
  import opened Seeding
  import opened Bracket
  import opened BracketRuns
  import opened BracketLength

  function EmptyRow(b: Bracket, at: Place): Row {
    Row(None, None, PENDING, None, Undecided, NextOf(b, at), if at.Main? then SlotOf(at.pos) else A,
        LoserNextOf(b, at), if LoserNextOf(b, at).Some? && at.pos > 0 then B else A, false)
  }

  function SeededRow(b: Bracket, at: Place): Row {
    if at.Main? && at.round == 1 then
      var row := EmptyRow(b, at).(a := Seeded(b, 2 * at.pos), b := Seeded(b, 2 * at.pos + 1));
      row.(status := if row.Both() then READY else PENDING)
    else EmptyRow(b, at)
  }

  // ---------------------------------------------------------------------------------- the passes over the rows

  function ShiftRight(n: nat, count: nat): nat {
    if count == 0 then n else ShiftRight(n / 2, count - 1)
  }

  lemma {:induction false} ShiftedPower(k: nat, count: nat)
    requires count <= k
    ensures ShiftRight(Pow2(k), count) == Pow2(k - count)
  {
    if count > 0 { ShiftedPower(k - 1, count - 1); }
  }

  function UnlinkedRow(b: Bracket, at: Place): Row {
    EmptyRow(b, at).(loserNext := None, loserSlot := A)
  }

  /** From the final backwards to some match of some round. */
  ghost predicate Filled(b: Bracket, number: nat, position: nat) {
    (forall at :: at in b.rows <==>
      at.Main? && IsPlace(b, at) && (at.round > number || (at.round == number && at.pos < position))) &&
    forall at :: at in b.rows ==> b.rows[at] == UnlinkedRow(b, at)
  }

  lemma NothingFilled(b: Bracket)
    requires b.rows == map[]
    ensures Filled(b, b.rounds, 0)
  {
    hide Pow2;
  }

  lemma FillNext(b: Bracket, number: nat, position: nat)
    requires Filled(b, number, position) && 1 <= number <= b.rounds && position < Pow2(b.rounds - number)
    ensures var at := Main(number, position);
            Filled(b.(rows := b.rows[at := UnlinkedRow(b, at)]), number, position + 1)
  {
    hide Pow2, UnlinkedRow;
    var at := Main(number, position);
    var b' := b.(rows := b.rows[at := UnlinkedRow(b, at)]);
    forall q ensures UnlinkedRow(b', q) == UnlinkedRow(b, q) { UnlinkedAlike(b, b', q); }
  }

  lemma UnlinkedAlike(b: Bracket, b': Bracket, q: Place)
    requires b'.rounds == b.rounds && b'.third == b.third
    ensures UnlinkedRow(b', q) == UnlinkedRow(b, q) && EmptyRow(b', q) == EmptyRow(b, q)
    ensures LoserNextOf(b, q).None? ==> UnlinkedRow(b, q) == EmptyRow(b, q)
  {}

  lemma FillRound(b: Bracket, number: nat)
    requires 1 <= number <= b.rounds && Filled(b, number, Pow2(b.rounds - number))
    ensures Filled(b, number - 1, 0)
  {}

  /** The losers of the first semifinals go to the match for third place. */
  ghost predicate LinkedUpTo(b: Bracket, position: nat) {
    (forall at :: at in b.rows <==> IsPlace(b, at)) &&
    forall at :: at in b.rows ==>
      b.rows[at] == if LoserNextOf(b, at).Some? && at.pos >= position then UnlinkedRow(b, at) else EmptyRow(b, at)
  }

  lemma NothingLinked(b: Bracket)
    requires Filled(b, 0, 0) && b.third
    ensures LinkedUpTo(b.(rows := b.rows[Third := EmptyRow(b, Third)]), 0)
  {
    hide Pow2, EmptyRow, UnlinkedRow;
    var b' := b.(rows := b.rows[Third := EmptyRow(b, Third)]);
    forall q
      ensures UnlinkedRow(b', q) == UnlinkedRow(b, q) && EmptyRow(b', q) == EmptyRow(b, q)
      ensures LoserNextOf(b, q).None? ==> UnlinkedRow(b, q) == EmptyRow(b, q)
    {
      UnlinkedAlike(b, b', q);
    }
  }

  lemma NoneToLink(b: Bracket)
    requires Filled(b, 0, 0) && !b.third
    ensures SeededUpTo(b, 0)
  {
    hide Pow2;
  }

  lemma LinkNext(b: Bracket, position: nat)
    requires LinkedUpTo(b, position) && b.third && b.rounds >= 2 && position < 2
    ensures Main(b.rounds - 1, position) in b.rows
    ensures b.rows[Main(b.rounds - 1, position)] == UnlinkedRow(b, Main(b.rounds - 1, position))
    ensures var at := Main(b.rounds - 1, position);
            LinkedUpTo(b.(rows := b.rows[at := EmptyRow(b, at)]), position + 1)
  {
    hide Pow2, EmptyRow, SeededRow, IsPlace;
    SemifinalPlace(b, position);
    var at := Main(b.rounds - 1, position);
    var b' := b.(rows := b.rows[at := EmptyRow(b, at)]);
    forall q
      ensures IsPlace(b', q) == IsPlace(b, q) && EmptyRow(b', q) == EmptyRow(b, q) &&
              LoserNextOf(b', q) == LoserNextOf(b, q)
    {
      RowsAlike(b, b', q);
    }
  }

  lemma SemifinalPlace(b: Bracket, position: nat)
    requires b.rounds >= 2 && position < 2
    ensures IsPlace(b, Main(b.rounds - 1, position))
  {
    assert Pow2(1) == 2;
  }

  /** The first matches of the first round have their players. */
  ghost predicate SeededUpTo(b: Bracket, position: nat) {
    (forall at :: at in b.rows <==> IsPlace(b, at)) &&
    forall at :: at in b.rows ==>
      b.rows[at] == if at.Main? && at.round == 1 && at.pos < position then SeededRow(b, at) else EmptyRow(b, at)
  }

  lemma SeedNext(b: Bracket, position: nat)
    requires b.rounds >= 1 && SeededUpTo(b, position) && position < Pow2(b.rounds - 1)
    ensures Main(1, position) in b.rows
    ensures SeededUpTo(b.(rows := b.rows[Main(1, position) := SeededRow(b, Main(1, position))]), position + 1)
  {
    hide Pow2, SeededRow, EmptyRow;
    var at := Main(1, position);
    assert IsPlace(b, at);
    var b' := b.(rows := b.rows[at := SeededRow(b, at)]);
    forall q
      ensures IsPlace(b', q) == IsPlace(b, q) && EmptyRow(b', q) == EmptyRow(b, q) &&
              SeededRow(b', q) == SeededRow(b, q)
    {
      RowsAlike(b, b', q);
    }
    hide IsPlace;
  }

  lemma RowsAlike(b: Bracket, b': Bracket, q: Place)
    requires b'.players == b.players && b'.rounds == b.rounds && b'.third == b.third
    ensures IsPlace(b', q) == IsPlace(b, q) && EmptyRow(b', q) == EmptyRow(b, q) && SeededRow(b', q) == SeededRow(b, q)
  {
    hide Pow2, Order;
  }

  lemma RowBefore(b: Bracket, position: nat)
    requires b.rounds >= 1 && SeededUpTo(b, position) && position < Pow2(b.rounds - 1)
    ensures Main(1, position) in b.rows && b.rows[Main(1, position)] == EmptyRow(b, Main(1, position))
  {
    assert IsPlace(b, Main(1, position));
  }

  lemma AllLinked(b: Bracket)
    requires LinkedUpTo(b, 2) && b.third && b.rounds >= 2
    ensures SeededUpTo(b, 0)
  {
    assert Pow2(1) == 2;
    forall at | at in b.rows && LoserNextOf(b, at).Some? ensures at.pos < 2 { assert IsPlace(b, at); }
  }

  lemma AllSeeded(b: Bracket)
    requires b.rounds >= 1 && SeededUpTo(b, Pow2(b.rounds - 1))
    ensures forall at :: at in b.rows ==> b.rows[at] == SeededRow(b, at)
  {
    hide EmptyRow, Pow2, Order, Seeded;
    forall at | at in b.rows ensures b.rows[at] == SeededRow(b, at) { assert IsPlace(b, at); }
  }

  // ------------------------------------------------------------------------------------------------- the byes

  /** A first-round match before its turn in the pass over the byes; any other match as in a finished bracket. */
  predicate StepShape(row: Row, at: Place, k: nat) {
    !row.played &&
    if at.Main? && at.round == 1 && at.pos >= k then
      row.winner.None? && row.reason.Undecided? && row.status == if row.Both() then READY else PENDING
    else ShapeOk(row, at) && (row.status.DECIDED? ==> row.reason.Bye?)
  }

  predicate StepRow(b: Bracket, at: Place, k: nat)
    requires at in b.rows
  {
    LinksOk(b, at) && SlotOk(b, at, A) && SlotOk(b, at, B) && StepShape(b.rows[at], at, k)
  }

  /** The byes of the first k matches have been decided. */
  ghost predicate Building(b: Bracket, k: nat) {
    Sized(b) && (forall at :: at in b.rows <==> IsPlace(b, at)) &&
    forall at {:trigger StepRow(b, at, k)} :: at in b.rows ==> StepRow(b, at, k)
  }

  lemma SeededIsBuilding(b: Bracket)
    requires Sized(b) && SeededUpTo(b, Pow2(b.rounds - 1))
    ensures Building(b, 0)
  {
    hide Pow2, StepRow, SeededRow, EmptyRow;
    AllSeeded(b);
    forall at {:trigger StepRow(b, at, 0)} | at in b.rows ensures StepRow(b, at, 0) {
      SeededStep(b, at);
    }
  }

  lemma SeededStep(b: Bracket, at: Place)
    requires Sized(b) && (forall q :: q in b.rows <==> IsPlace(b, q)) && at in b.rows
    requires forall q :: q in b.rows ==> b.rows[q] == SeededRow(b, q)
    ensures StepRow(b, at, 0)
  {
    hide SlotOk, LinksOk, IsPlace, Feeder;
    SeededLinks(b, at);
    SeededSlot(b, at, A);
    SeededSlot(b, at, B);
    FeederIsPlace(b, at, A);
  }

  lemma SeededSlot(b: Bracket, at: Place, s: Slot)
    requires Sized(b) && (forall q :: q in b.rows <==> IsPlace(b, q)) && at in b.rows
    requires forall q :: q in b.rows ==> b.rows[q] == SeededRow(b, q)
    ensures SlotOk(b, at, s)
  {
    hide Order, Seeded, IsPlace;
    FeederIsPlace(b, at, s);
  }

  lemma SeededLinks(b: Bracket, at: Place)
    requires (forall q :: q in b.rows <==> IsPlace(b, q)) && at in b.rows && b.rows[at] == SeededRow(b, at)
    ensures IsPlace(b, at) && LinksOk(b, at)
  {
    hide Seeded;
  }

  lemma StepParts(b: Bracket, at: Place, k: nat, s: Slot)
    requires Building(b, k) && at in b.rows
    ensures IsPlace(b, at) && LinksOk(b, at) && SlotOk(b, at, s) && StepShape(b.rows[at], at, k)
  {
    assert StepRow(b, at, k);
  }

  lemma RowsExist(b: Bracket)
    requires Good(b)
    ensures b.rows != map[]
  {
    FinalIsPlace(b);
  }

  lemma BuiltIsGood(b: Bracket, k: nat)
    requires Building(b, k) && k >= Pow2(b.rounds - 1) && b.stage.DRAFT?
    ensures Good(b) && Played(b) == {} && forall at :: at in b.rows ==> !b.rows[at].played
  {
    forall at | at in b.rows
      ensures RowOk(b, at) && !b.rows[at].played && (b.rows[at].status.DECIDED? ==> b.rows[at].reason.Bye?)
    {
      StepParts(b, at, k, A);
      StepParts(b, at, k, B);
    }
    hide RowOk;
  }

  function ByeRow(row: Row): Row {
    row.(status := DECIDED, winner := Some(if row.a.Some? then A else B), reason := Bye)
  }

  /** The lone player of a bye is in slot a, and goes on to a match of the second round. */
  lemma ByeIs(b: Bracket, k: nat)
    requires Building(b, k) && k < Pow2(b.rounds - 1)
    ensures var at := Main(1, k);
            at in b.rows && b.rows[at].a.Some? &&
            (b.rows[at].status.PENDING? <==> b.rows[at].b.None?) && !b.rows[at].status.DECIDED? &&
            (b.rows[at].b.None? ==> b.rounds >= 2)
    ensures b.rounds >= 2 ==>
              (b.rows[Main(1, k)].next == Some(Main(2, k / 2)) && b.rows[Main(1, k)].nextSlot == SlotOf(k) &&
               Main(2, k / 2) in b.rows)
    ensures Linked(b, Main(1, k))
  {
    hide Order, StepRow;
    var at := Main(1, k);
    assert IsPlace(b, at);
    StepParts(b, at, k, A);
    StepParts(b, at, k, B);
    ByesGoToTheBest(b.rounds, |b.players|, k);
    SizedRounds(b);
    TargetsExist(b, k);
  }

  lemma TargetsExist(b: Bracket, k: nat)
    requires Building(b, k) && k < Pow2(b.rounds - 1)
    ensures if b.rounds == 1 then |b.players| == Pow2(1) else Main(2, k / 2) in b.rows
    ensures b.third ==> Third in b.rows
  {
    hide StepRow;
    if b.rounds == 1 {
      assert Pow2(1) == 2 && Pow2(0) == 1;
    } else {
      assert Pow2(b.rounds - 1) == 2 * Pow2(b.rounds - 2);
      assert IsPlace(b, Main(2, k / 2));
    }
    if b.third { assert IsPlace(b, Third); }
  }

  function AfterBye(b: Bracket, k: nat): map<Place, Row>
    requires Main(1, k) in b.rows && Main(2, k / 2) in b.rows
  {
    var row := ByeRow(b.rows[Main(1, k)]);
    b.rows[Main(1, k) := row][Main(2, k / 2) := Fill(b.rows[Main(2, k / 2)], row.nextSlot, row.Winner())]
  }

  lemma ByeLinks(b: Bracket, k: nat, q: Place)
    requires Building(b, k) && k < Pow2(b.rounds - 1) && Main(1, k) in b.rows && b.rows[Main(1, k)].b.None?
    requires q in b.rows
    ensures Main(2, k / 2) in b.rows && q in AfterBye(b, k) && LinksOk(b.(rows := AfterBye(b, k)), q)
  {
    hide SlotOk, StepShape, Building;
    ByeIs(b, k);
    StepParts(b, q, k, A);
  }

  lemma ByeShape(b: Bracket, k: nat, q: Place)
    requires Building(b, k) && k < Pow2(b.rounds - 1) && Main(1, k) in b.rows && b.rows[Main(1, k)].b.None?
    requires q in b.rows
    ensures Main(2, k / 2) in b.rows && q in AfterBye(b, k)
    ensures StepShape(AfterBye(b, k)[q], q, k + 1) && LinksOk(b.(rows := AfterBye(b, k)), q)
  {
    hide SlotOk, LinksOk, Building;
    ByeLinks(b, k, q);
    ByeIs(b, k);
    StepParts(b, q, k, A);
    if q == Main(2, k / 2) {
      FillKeepsShape(b.rows[q], SlotOf(k), b.rows[Main(1, k)].a, q);
    }
  }

  /** The lone player gets to the slot the bye feeds, and nobody else moves. */
  lemma OfAfterBye(b: Bracket, k: nat, q: Place, s: Slot)
    requires Building(b, k) && k < Pow2(b.rounds - 1) && Main(1, k) in b.rows && b.rows[Main(1, k)].b.None?
    requires q in b.rows
    ensures Main(2, k / 2) in b.rows && q in AfterBye(b, k)
    ensures AfterBye(b, k)[q].Of(s)
            == if q.Main? && Feeder(b, q, s) == Some(Main(1, k)) then b.rows[Main(1, k)].a else b.rows[q].Of(s)
  {
    hide SlotOk, StepShape, Order, Feeder;
    ByeIs(b, k);
    StepParts(b, q, k, s);
    StepParts(b, Main(1, k), k, A);
    FeederIsLink(b, Main(1, k), q, s);
  }

  lemma SentAfterBye(b: Bracket, k: nat, f: Place, q: Place)
    requires Building(b, k) && k < Pow2(b.rounds - 1) && Main(1, k) in b.rows && b.rows[Main(1, k)].b.None?
    requires f in b.rows
    ensures Main(2, k / 2) in b.rows && f in AfterBye(b, k)
    ensures Sent(b.(rows := AfterBye(b, k)), f, q)
            == if q.Main? && f == Main(1, k) then b.rows[Main(1, k)].a else Sent(b, f, q)
  {
    hide LinksOk, Order, Sized;
    ByeIs(b, k);
    StepParts(b, Main(2, k / 2), k, SlotOf(k));
    StepParts(b, Main(1, k), k, A);
    assert Feeder(b, Main(2, k / 2), SlotOf(k)) == Some(Main(1, k));
    assert b.rows[Main(2, k / 2)].winner.None?;
  }

  lemma ByeSlot(b: Bracket, k: nat, q: Place, s: Slot)
    requires Building(b, k) && k < Pow2(b.rounds - 1) && Main(1, k) in b.rows && b.rows[Main(1, k)].b.None?
    requires q in b.rows
    ensures Main(2, k / 2) in b.rows && q in AfterBye(b, k) && SlotOk(b.(rows := AfterBye(b, k)), q, s)
  {
    hide LinksOk, StepShape, Seeded, AfterBye, Feeder, Building;
    ByeIs(b, k);
    OfAfterBye(b, k, q, s);
    StepParts(b, q, k, s);
    SlotAlike(b, b.(rows := AfterBye(b, k)), q, s);
    if Feeder(b, q, s).Some? { SentAfterBye(b, k, Feeder(b, q, s).value, q); }
  }

  /** Deciding a bye and moving its player on is one step of the pass. */
  lemma ByeStep(b: Bracket, k: nat)
    requires Building(b, k) && k < Pow2(b.rounds - 1) && b.stage.DRAFT?
    ensures Linked(b, Main(1, k))
    ensures var at := Main(1, k);
            if b.rows[at].status.PENDING? then
              var moved := Advance(b.(rows := b.rows[at := ByeRow(b.rows[at])]), at);
              moved.Some? && moved.value == b.(rows := moved.value.rows) && Building(moved.value, k + 1)
            else Building(b, k + 1)
  {
    hide LinksOk, SlotOk, Pow2;
    ByeIs(b, k);
    var at := Main(1, k);
    if b.rows[at].status.PENDING? {
      ByeMoves(b, k);
      var b' := b.(rows := AfterBye(b, k));
      forall q {:trigger StepRow(b', q, k + 1)} | q in b'.rows ensures StepRow(b', q, k + 1) {
        ByeShape(b, k, q);
        ByeSlot(b, k, q, A);
        ByeSlot(b, k, q, B);
      }
      forall q ensures q in b'.rows <==> IsPlace(b', q) { assert q in b.rows <==> IsPlace(b, q); }
    } else {
      forall q {:trigger StepRow(b, q, k + 1)} | q in b.rows ensures StepRow(b, q, k + 1) { assert StepRow(b, q, k); }
    }
  }

  lemma ByeMoves(b: Bracket, k: nat)
    requires Building(b, k) && k < Pow2(b.rounds - 1) && b.stage.DRAFT?
    requires Main(1, k) in b.rows && b.rows[Main(1, k)].status.PENDING?
    ensures Linked(b, Main(1, k)) && Main(2, k / 2) in b.rows
    ensures Advance(b.(rows := b.rows[Main(1, k) := ByeRow(b.rows[Main(1, k)])]), Main(1, k))
            == Some(b.(rows := AfterBye(b, k)))
  {
    hide SlotOk, LinksOk, Pow2;
    ByeIs(b, k);
    StepParts(b, Main(2, k / 2), k, A);
  }

  // ------------------------------------------------------------------------------------------------- starting

  /** start_tournament(): only a draft whose bracket has been built. */
  function Started(b: Bracket): Option<Bracket> {
    if b.stage.DRAFT? && b.rows != map[] then Some(b.(stage := RUNNING)) else None
  }

  lemma StartKeepsGood(b: Bracket)
    requires Good(b) && b.stage.DRAFT?
    ensures Started(b).Some? && Good(Started(b).value) && Played(Started(b).value) == {}
  {
    FinalIsPlace(b);
    RowParts(b, Main(b.rounds, 0), A);
    OnlyStage(b, RUNNING);
  }
}
