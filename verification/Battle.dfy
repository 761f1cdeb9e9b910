/** A series whose match and games are updated in place (judge/arena/engine.py). */
module Battle {
  import opened Common
  import opened Series
  import opened SeriesRuns
  import Scoring

  lemma VoidedNext(games: seq<Game>, i: nat)
    requires i < |games| && |VoidOpen(games[..i])| == i
    ensures VoidOpen(games[..i + 1]) == VoidOpen(games[..i]) + [Voided(games[i])]
    ensures VoidOpen(games[..i + 1]) + games[i + 1..] == (VoidOpen(games[..i]) + games[i..])[i := Voided(games[i])]
  {
    assert games[..i + 1][..i] == games[..i];
  }

  class Battle {
    const tournament: bool
    var bestOf: nat
    var status: MatchState
    var knownA: bool
    var knownB: bool
    var winsA: nat
    var winsB: nat
    var winner: Option<Slot>
    var reason: Reason
    var games: seq<Game>

    ghost function View(): Series
      reads this
    {
      Series(bestOf, tournament, status, knownA, knownB, winsA, winsB, winner, reason, games)
    }

    /** A match of a bracket. */
    constructor InBracket(bestOf: nat)
      ensures View() == BracketMatch(bestOf)
    {
      tournament, this.bestOf, status, knownA, knownB := true, bestOf, PENDING, false, false;
      winsA, winsB, winner, reason, games := 0, 0, None, Undecided, [];
    }

    /** create_duel(), once its choices are accepted. */
    constructor Quick(bestOf: nat, prepared: nat, called: bool)
      requires Duel(bestOf, prepared, called).Some?
      ensures View() == Duel(bestOf, prepared, called).value
    {
      tournament, this.bestOf, status, knownA, knownB := false, bestOf, if called then CALLED else READY, true, true;
      winsA, winsB, winner, reason, games := 0, 0, None, Undecided, [];
      new;
      CreateGames(prepared);
    }

    predicate IsOver()
      reads this
    {
      status == DECIDED || status == MatchState.CANCELLED
    }

    method CreateGames(number: nat)
      modifies `games
      ensures games == Extended(old(games), number)
    {
      var last := LastNumber();
      while last < number
        invariant last == MaxNumber(games) && Extended(games, number) == Extended(old(games), number)
      {
        assert (games + [NewGame(last + 1)])[..|games|] == games;
        last := last + 1;
        games := games + [NewGame(last)];
      }
    }

    method LastNumber() returns (number: nat)
      ensures number == MaxNumber(games)
    {
      number := 0;
      for i := 0 to |games|
        invariant number == MaxNumber(games[..i])
      {
        assert games[..i + 1][..i] == games[..i];
        if games[i].number > number { number := games[i].number; }
      }
      assert games[..|games|] == games;
    }

    method EnsureNextGame()
      modifies `games
      ensures View() == EnsureNext(old(View()))
    {
      for i := 0 to |games|
        invariant forall k :: 0 <= k < i ==> !games[k].state.PREPARED?
      {
        if games[i].state == PREPARED { return; }
      }
      var last := LastNumber();
      games := games + [NewGame(last + 1)];
    }

    /** Games prepared in advance and never played leave nothing behind. */
    method Decide(slot: Slot, reason: Reason)
      modifies `status, `winner, `reason, `games
      ensures View() == DecideMatch(old(View()), slot, reason)
    {
      status, winner, this.reason := DECIDED, Some(slot), reason;
      DeletePrepared();
    }

    method DeletePrepared()
      modifies `games
      ensures games == Started(old(games))
    {
      var left: seq<Game> := [];
      for i := 0 to |games|
        invariant games == old(games) && left == Started(games[..i])
      {
        assert games[..i + 1][..i] == games[..i];
        if games[i].state != PREPARED { left := left + [games[i]]; }
      }
      assert games[..|games|] == games;
      games := left;
    }

    method VoidOpenGames()
      modifies `games
      ensures games == VoidOpen(old(games))
    {
      for i := 0 to |games|
        invariant |games| == |old(games)| && games == VoidOpen(old(games)[..i]) + old(games)[i..]
        invariant |VoidOpen(old(games)[..i])| == i
      {
        VoidedNext(old(games), i);
        assert games[i] == old(games)[i];
        var state := games[i].state;
        if state == COUNTDOWN || state == LIVE || state == VERIFYING || state == TIED {
          games := games[i := games[i].(state := VOIDED, closed := true)];
        }
      }
      assert old(games)[..|games|] == old(games);
    }

    /** _finish() */
    method FinishGame(i: nat, slot: Slot)
      requires i < |games|
      modifies `status, `winsA, `winsB, `winner, `reason, `games
      ensures View() == Finish(old(View()), i, slot)
    {
      hide Started, MaxNumber, HasPrepared, EnsureNext;
      games := games[i := games[i].(state := FINISHED, winner := Some(slot), closed := true)];
      if IsOver() { return; }
      if slot == A { winsA := winsA + 1; } else { winsB := winsB + 1; }
      if Max(winsA, winsB) >= bestOf / 2 + 1 {
        Decide(slot, Games);
      } else {
        EnsureNextGame();
      }
    }

    /** _tie() */
    method RecordTie(i: nat)
      requires i < |games|
      modifies `games
      ensures View() == TieGame(old(View()), i)
    {
      games := games[i := games[i].(state := TIED, closed := true)];
      if !IsOver() { EnsureNextGame(); }
    }

    method Find(number: nat) returns (i: nat)
      ensures i == IndexOf(games, number)
    {
      i := 0;
      while i < |games| && games[i].number != number
        invariant i <= |games| && IndexOf(games, number) == i + IndexOf(games[i..], number)
      {
        assert games[i..][1..] == games[i + 1..];
        i := i + 1;
      }
    }

    method FindPrepared() returns (i: nat)
      ensures i == FirstPrepared(games)
    {
      i := 0;
      while i < |games| && games[i].state != PREPARED
        invariant i <= |games| && FirstPrepared(games) == i + FirstPrepared(games[i..])
      {
        assert games[i..][1..] == games[i + 1..];
        i := i + 1;
      }
    }

    method AnyActive() returns (any: bool)
      ensures any == HasActive(games)
    {
      any := false;
      for i := 0 to |games|
        invariant any == exists k :: 0 <= k < i && games[k].Active()
      {
        any := any || games[i].Active();
      }
    }

    /** tick(): a poll brings a game up to date with what the scoring says of it now. */
    method TickIt(number: nat, decision: Scoring.Decision)
      modifies `status, `winsA, `winsB, `winner, `reason, `games
      ensures View() == TickGame(old(View()), number, decision)
    {
      var i := Find(number);
      if i == |games| || !games[i].Active() { return; }
      match decision {
        case Countdown =>
        case Live => if games[i].state != LIVE { games := games[i := games[i].(state := LIVE)]; }
        case Verifying =>
          if games[i].state != VERIFYING { games := games[i := games[i].(state := VERIFYING, closed := true)]; }
        case Finish(slot, _) => FinishGame(i, slot);
        case Tie => RecordTie(i);
      }
    }

    method CallPlayers() returns (ok: bool)
      modifies `status, `games
      ensures Step(old(View()), Call) == if ok then Some(View()) else None
      ensures !ok ==> View() == old(View())
    {
      if status == CALLED || status == PLAYING { return true; }
      if status != READY || !knownA || !knownB { return false; }
      status := CALLED;
      EnsureNextGame();
      return true;
    }

    method AddOne() returns (ok: bool)
      modifies `games
      ensures Step(old(View()), AddGame) == if ok then Some(View()) else None
      ensures !ok ==> View() == old(View())
    {
      if IsOver() { return false; }
      EnsureNextGame();
      return true;
    }

    /** The ties and voids so far. */
    method ExtraGames() returns (extra: nat)
      ensures extra == CountExtra(games)
    {
      extra := 0;
      for i := 0 to |games|
        invariant extra == CountExtra(games[..i])
      {
        assert games[..i + 1][..i] == games[..i];
        if games[i].state == TIED || games[i].state == VOIDED { extra := extra + 1; }
      }
      assert games[..|games|] == games;
    }

    /** set_game_problems() of a game by its number, which may not exist yet. */
    method PrepareNumber(number: nat) returns (ok: bool)
      modifies `games
      ensures Step(old(View()), Prepare(number)) == if ok then Some(View()) else None
      ensures !ok ==> View() == old(View())
    {
      hide CountExtra, Extended, MaxNumber, IndexOf;
      if IsOver() { return false; }
      var extra := ExtraGames();
      if number < 1 || number > bestOf + extra { return false; }
      var before := games;
      var i := Find(number);
      if i == |games| {
        CreateGames(number);
        i := Find(number);
      }
      ok := i < |games| && games[i].state == PREPARED;
      if !ok { games := before; }
    }

    /** start_game(): of the game asked for, or else the first prepared one. */
    method StartNext(number: Option<nat>, allowed: bool) returns (ok: bool)
      modifies `status, `games
      ensures Step(old(View()), Start(number, allowed)) == if ok then Some(View()) else None
      ensures !ok ==> View() == old(View())
    {
      hide IndexOf, HasActive, FirstPrepared;
      if (status != READY && status != CALLED && status != PLAYING) || !knownA || !knownB { return false; }
      var busy := AnyActive();
      if busy { return false; }
      var i;
      if number.Some? { i := Find(number.value); } else { i := FindPrepared(); }
      if i == |games| || games[i].state != PREPARED || !allowed { return false; }
      games := games[i := games[i].(state := COUNTDOWN)];
      if status != PLAYING { status := PLAYING; }
      return true;
    }

    method VoidIt(number: nat) returns (ok: bool)
      modifies `games
      ensures Step(old(View()), CancelGame(number)) == if ok then Some(View()) else None
      ensures !ok ==> View() == old(View())
    {
      if IsOver() { return false; }
      var i := Find(number);
      if i == |games| || !(games[i].Active() || games[i].state == TIED) { return false; }
      var busy := AnyActive();
      if games[i].state == TIED && busy { return false; }
      games := games[i := games[i].(state := VOIDED, closed := true)];
      if status == PLAYING { EnsureNextGame(); }
      return true;
    }

    method DeclareIt(number: nat, slot: Slot) returns (ok: bool)
      modifies `status, `winsA, `winsB, `winner, `reason, `games
      ensures Step(old(View()), Declare(number, slot)) == if ok then Some(View()) else None
      ensures !ok ==> View() == old(View())
    {
      var i := Find(number);
      if i == |games| || !(games[i].Active() || games[i].state == TIED) || status != PLAYING { return false; }
      var busy := AnyActive();
      if games[i].state == TIED && busy { return false; }
      FinishGame(i, slot);
      return true;
    }

    method FinalizeIt(number: nat, verdict: Option<Slot>) returns (ok: bool)
      modifies `status, `winsA, `winsB, `winner, `reason, `games
      ensures Step(old(View()), Finalize(number, verdict)) == if ok then Some(View()) else None
      ensures !ok ==> View() == old(View())
    {
      if IsOver() { return false; }
      var i := Find(number);
      if i == |games| || games[i].state != VERIFYING { return false; }
      if verdict.Some? { FinishGame(i, verdict.value); } else { RecordTie(i); }
      return true;
    }

    method WalkoverTo(slot: Slot) returns (ok: bool)
      modifies `status, `winner, `reason, `games
      ensures Step(old(View()), GiveWalkover(slot)) == if ok then Some(View()) else None
      ensures !ok ==> View() == old(View())
    {
      hide Started, VoidOpen;
      if IsOver() || !(if slot == A then knownA else knownB) { return false; }
      VoidOpenGames();
      Decide(slot, Walkover);
      return true;
    }

    method CancelIt() returns (ok: bool)
      modifies `status, `games
      ensures Step(old(View()), CancelMatch) == if ok then Some(View()) else None
      ensures !ok ==> View() == old(View())
    {
      hide Started, VoidOpen;
      if tournament || IsOver() { return false; }
      VoidOpenGames();
      DeletePrepared();
      status := MatchState.CANCELLED;
      return true;
    }

    method SetBestOf(n: nat) returns (ok: bool)
      modifies `bestOf
      ensures Step(old(View()), SetLength(n)) == if ok then Some(View()) else None
      ensures !ok ==> View() == old(View())
    {
      if IsOver() || n !in [1, 3, 5, 7, 9] || n / 2 + 1 <= Max(winsA, winsB) { return false; }
      bestOf := n;
      return true;
    }
  }
}
