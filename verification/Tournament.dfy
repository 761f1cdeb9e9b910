/** A tournament whose matches are updated in place (judge/arena/tournament.py). */
module Tournament {
  import opened Common
  import opened Seeding
  import opened Bracket
  import opened BracketRuns
  import opened BracketLength
  import opened BracketBuild

  class Tournament {
    const players: seq<Player>  // by seed
    const thirdPlaceMatch: bool
    var rounds: nat
    var third: bool
    var rows: map<Place, Row>
    var stage: Stage

    ghost function View(): Bracket
      reads this
    {
      Bracket(players, rounds, third, rows, stage)
    }

    constructor (players: seq<Player>, thirdPlaceMatch: bool)
      ensures this.players == players && this.thirdPlaceMatch == thirdPlaceMatch
      ensures rows == map[] && stage == DRAFT
    {
      this.players, this.thirdPlaceMatch := players, thirdPlaceMatch;
      rounds, third, rows, stage := 0, false, map[], DRAFT;
    }

    /** _place(): false when the target has been played. */
    method PlacePlayer(target: Place, slot: Slot, e: Option<Entry>) returns (ok: bool)
      requires target in rows
      modifies `rows
      ensures Put(old(View()), target, slot, e) == if ok then Some(View()) else None
    {
      if rows[target].played { return false; }
      var row := rows[target].With(slot, e);
      if row.Both() && row.status == PENDING {
        row := row.(status := READY);
      } else if !row.Both() && row.status == READY {
        row := row.(status := PENDING);
      }
      rows := rows[target := row];
      return true;
    }

    method CheckDone()
      modifies `stage
      ensures View() == CheckFinished(old(View()))
    {
      if stage == RUNNING && Main(rounds, 0) in rows && rows[Main(rounds, 0)].status == DECIDED {
        if Third !in rows || rows[Third].status == DECIDED { stage := FINISHED; }
      }
    }

    method AdvancePlayers(at: Place) returns (ok: bool)
      requires Linked(View(), at)
      modifies `rows, `stage
      ensures Advance(old(View()), at) == if ok then Some(View()) else None
    {
      var row := rows[at];
      if row.winner == None { return true; }
      if row.next.Some? {
        ok := PlacePlayer(row.next.value, row.nextSlot, row.Of(row.winner.value));
        if !ok { return; }
      }
      if row.loserNext.Some? && row.Of(row.winner.value.Other()).Some? {
        ok := PlacePlayer(row.loserNext.value, row.loserSlot, row.Of(row.winner.value.Other()));
        if !ok { return; }
      }
      CheckDone();
      return true;
    }

    /** _decide_match(): when its players cannot move on, everything is undone. */
    method DecideMatch(at: Place, slot: Slot, reason: Reason) returns (ok: bool)
      requires Linked(View(), at)
      modifies `rows, `stage
      ensures Decide(old(View()), at, slot, reason) == if ok then Some(View()) else None
      ensures !ok ==> View() == old(View())
    {
      var before := rows;
      rows := rows[at := rows[at].(status := DECIDED, winner := Some(slot), reason := reason)];
      var was := stage;
      ok := AdvancePlayers(at);
      if !ok { rows, stage := before, was; }
    }

    /** The guards of set_winner(). */
    method Correctable(at: Place, slot: Slot) returns (ok: bool)
      requires Linked(View(), at)
      ensures ok == CanCorrect(View(), at, slot)
    {
      var row := rows[at];
      if row.status != DECIDED || row.winner == Some(slot) || row.Of(slot) == None { return false; }
      if row.next.Some? && rows[row.next.value].played { return false; }
      if row.loserNext.Some? && rows[row.loserNext.value].played { return false; }
      return true;
    }

    /** set_winner() */
    method CorrectWinner(at: Place, slot: Slot) returns (ok: bool)
      requires Linked(View(), at)
      modifies `rows, `stage
      ensures SetWinner(old(View()), at, slot) == if ok then Some(View()) else None
      ensures !ok ==> View() == old(View())
    {
      hide Advance, CanCorrect;
      ok := Correctable(at, slot);
      if !ok { return; }
      var row := rows[at];
      var before, was := rows, stage;
      var reason := if row.reason != Walkover then Organizer else row.reason;
      rows := rows[at := row.(winner := Some(slot), reason := reason)];
      if stage == FINISHED { stage := RUNNING; }
      ok := AdvancePlayers(at);
      if !ok { rows, stage := before, was; }
    }

    method Start() returns (ok: bool)
      modifies `stage
      ensures Started(old(View())) == if ok then Some(View()) else None
      ensures !ok ==> View() == old(View())
    {
      if stage != DRAFT || rows == map[] { return false; }
      stage := RUNNING;
      return true;
    }

    /** The rows of the empty bracket, from the final backwards. */
    method BuildRounds(size: nat)
      requires rounds >= 1 && size == Pow2(rounds)
      modifies `rows
      ensures Filled(View(), 0, 0)
    {
      hide Pow2, Filled;
      rows := map[];
      NothingFilled(View());
      var number: nat := rounds;
      while number > 0
        invariant number <= rounds && Filled(View(), number, 0)
      {
        ShiftedPower(rounds, number);
        for position := 0 to ShiftRight(size, number)
          invariant Filled(View(), number, position)
        {
          FillNext(View(), number, position);
          var next := if number < rounds then Some(Main(number + 1, position / 2)) else None;
          rows := rows[Main(number, position) :=
            Row(None, None, PENDING, None, Undecided, next, if position % 2 == 0 then A else B, None, A, false)];
        }
        FillRound(View(), number);
        number := number - 1;
      }
    }

    /** The match for third place and the links of the semifinals to it. */
    method BuildThird()
      requires Filled(View(), 0, 0) && third && rounds >= 2
      modifies `rows
      ensures SeededUpTo(View(), 0)
    {
      hide Filled, LinkedUpTo, SeededUpTo;
      NothingLinked(View());
      rows := rows[Third := Row(None, None, PENDING, None, Undecided, None, A, None, A, false)];
      for position := 0 to 2
        invariant LinkedUpTo(View(), position)
      {
        LinkNext(View(), position);
        var semifinal := Main(rounds - 1, position);
        rows := rows[semifinal :=
          rows[semifinal].(loserNext := Some(Third), loserSlot := if position == 0 then A else B)];
      }
      AllLinked(View());
    }

    /** Who plays the first round, by the seeding order. */
    method SeedPlayers(size: nat)
      requires rounds >= 1 && size == Pow2(rounds) && SeededUpTo(View(), 0)
      modifies `rows
      ensures SeededUpTo(View(), Pow2(rounds - 1))
    {
      hide SeededUpTo, IsPlace, NextOf, LoserNextOf, Order;
      var order, k := SeedingOrder(size);
      SameSize(size, k, rounds);
      for position := 0 to size / 2
        invariant SeededUpTo(View(), position)
      {
        SeedNext(View(), position);
        RowBefore(View(), position);
        var seedA, seedB := order[2 * position], order[2 * position + 1];
        var a := if seedA <= |players| then Some(Entry(players[seedA - 1], seedA)) else None;
        var b := if seedB <= |players| then Some(Entry(players[seedB - 1], seedB)) else None;
        var row := rows[Main(1, position)];
        var status := if a.Some? && b.Some? then READY else row.status;
        rows := rows[Main(1, position) := row.(a := a, b := b, status := status)];
      }
      assert Pow2(rounds) == 2 * Pow2(rounds - 1);
    }

    /** The lone player of a bye goes straight through. */
    method DecideByes(size: nat)
      requires Building(View(), 0) && stage == DRAFT && size == Pow2(rounds)
      modifies `rows, `stage
      ensures Good(View()) && Played(View()) == {} && stage == DRAFT
      ensures forall at :: at in rows ==> !rows[at].played
    {
      for position := 0 to size / 2
        invariant Building(View(), position) && stage == DRAFT
      {
        ByeStep(View(), position);
        var at := Main(1, position);
        if rows[at].status == PENDING {
          var slot := if rows[at].a.Some? then A else B;
          rows := rows[at := rows[at].(status := DECIDED, winner := Some(slot), reason := Bye)];
          var moved := AdvancePlayers(at);
        }
      }
      BuiltIsGood(View(), size / 2);
    }

    /** _build_bracket(): for a draft, from the participants by seed; building again starts over. */
    method Build() returns (ok: bool)
      requires stage == DRAFT && forall i, j :: 0 <= i < j < |players| ==> players[i] != players[j]
      modifies `rounds, `third, `rows, `stage
      ensures ok <==> |players| >= 2
      ensures ok ==> Good(View()) && Played(View()) == {} && stage == DRAFT && rows != map[]
      ensures ok ==> third == (thirdPlaceMatch && |players| >= 4) && forall at :: at in rows ==> !rows[at].played
      ensures !ok ==> View() == old(View())
    {
      hide Filled, SeededUpTo, Building, Good, Played, IsPlace, SeededRow;
      if |players| < 2 { return false; }
      rounds := RoundCount(|players|);
      var size, k := BracketSize(|players|);
      SameSize(|players|, k, rounds);
      third := thirdPlaceMatch && rounds >= 2 && |players| >= 4;
      RoundsFor(|players|, rounds);
      BuildRounds(size);
      if third {
        BuildThird();
      } else {
        NoneToLink(View());
      }
      SeedPlayers(size);
      SeededIsBuilding(View());
      DecideByes(size);
      RowsExist(View());
      return true;
    }
  }

  lemma RoundsFor(count: nat, rounds: nat)
    requires 2 <= count <= Pow2(rounds)
    ensures rounds >= 1 && (count >= 4 ==> rounds >= 2)
  {
    assert Pow2(0) == 1 && Pow2(1) == 2;
  }

  /** The least power of two that is enough is one. */
  lemma SameSize(count: nat, j: nat, k: nat)
    requires count <= Pow2(j) && (j > 0 ==> Pow2(j - 1) < count)
    requires count <= Pow2(k) && (k > 0 ==> Pow2(k - 1) < count)
    ensures j == k
  {
    if j < k { Pow2Grows(j, k - 1); }
    if k < j { Pow2Grows(k, j - 1); }
  }
}
