/** What every action on a series keeps, over whole runs. */
module SeriesRuns {
  import opened Common
  import opened Series
  import Scoring

  // ------------------------------------------------------------------------------------- what always holds

  ghost predicate ScoreOk(s: Series) {
    s.winsA == Count(s.games, WON_A) && s.winsB == Count(s.games, WON_B) &&
    (forall game :: game in s.games && game.state.FINISHED? ==> game.winner.Some?)
  }

  predicate OutcomeOk(s: Series) {
    match s.status
    case DECIDED =>
      s.winner.Some? &&
      (match s.reason
       case Undecided => false
       case Games => s.Wins(s.winner.value) == s.Needed() > s.Wins(s.winner.value.Other())
       case Walkover => Max(s.winsA, s.winsB) < s.Needed()
       case Organizer => Max(s.winsA, s.winsB) == s.Needed() > Min(s.winsA, s.winsB))
    case _ => s.winner.None? && s.reason.Undecided? && Max(s.winsA, s.winsB) < s.Needed()
  }

  /** Before it is played nothing has been started; while it is played there is always a game to play. */
  ghost predicate GamesOk(s: Series) {
    Count(s.games, ACTIVE) <= (if s.status.PLAYING? then 1 else 0) &&
    (s.status.PENDING? || s.status.READY? || s.status.CALLED? ==>
      forall game :: game in s.games ==> game.state.PREPARED?) &&
    (s.status.CALLED? || s.status.PLAYING? ==> Count(s.games, ACTIVE) + Count(s.games, UNPLAYED) >= 1)
  }

  /** The games of a series that is not over are numbered from 1 on. */
  ghost predicate NumbersOk(s: Series) {
    !s.Over() ==> forall i :: 0 <= i < |s.games| ==> s.games[i].number == i + 1
  }

  /** A match waits for its players, and nothing is called or played before both are there. */
  predicate PlayersOk(s: Series) {
    (s.status.PENDING? ==> !(s.knownA && s.knownB)) &&
    (s.status.READY? || s.status.CALLED? || s.status.PLAYING? ==> s.knownA && s.knownB)
  }

  ghost predicate Inv(s: Series) {
    LengthOk(s.bestOf) && PlayersOk(s) && ScoreOk(s) && OutcomeOk(s) && GamesOk(s) && NumbersOk(s)
  }

  // --------------------------------------------------------------------------------------- counting the games

  lemma CountAppend(games: seq<Game>, game: Game, p: Game -> bool)
    ensures Count(games + [game], p) == Count(games, p) + if p(game) then 1 else 0
  {
    assert (games + [game])[..|games|] == games;
  }

  lemma {:induction false} CountUpdate(games: seq<Game>, i: nat, game: Game, p: Game -> bool)
    requires i < |games|
    ensures Count(games[i := game], p) + (if p(games[i]) then 1 else 0) == Count(games, p) + if p(game) then 1 else 0
  {
    var n := |games| - 1;
    if i < n {
      assert games[i := game][..n] == games[..n][i := game];
      CountUpdate(games[..n], i, game, p);
    } else {
      assert games[i := game][..n] == games[..n];
    }
  }

  lemma {:induction false} CountIn(games: seq<Game>, p: Game -> bool)
    ensures Count(games, p) > 0 <==> exists i :: 0 <= i < |games| && p(games[i])
  {
    if games != [] {
      CountIn(games[..|games| - 1], p);
      if exists i :: 0 <= i < |games| && p(games[i]) {
        var i :| 0 <= i < |games| && p(games[i]);
        assert i < |games| - 1 ==> games[..|games| - 1][i] == games[i];
      }
    }
  }

  /** Dropping the prepared games drops nothing that is counted, and no game that was started. */
  lemma {:induction false} CountStarted(games: seq<Game>, p: Game -> bool)
    requires forall game :: p(game) ==> !game.state.PREPARED?
    ensures Count(Started(games), p) == Count(games, p)
    ensures forall game :: game in Started(games) <==> game in games && !game.state.PREPARED?
  {
    if games != [] {
      var n := |games| - 1;
      CountStarted(games[..n], p);
      assert games == games[..n] + [games[n]];
      if games[n].state.PREPARED? {
        assert Started(games) == Started(games[..n]);
      } else {
        CountAppend(Started(games[..n]), games[n], p);
      }
    }
  }

  lemma {:induction false} CountVoided(games: seq<Game>, p: Game -> bool)
    requires forall game :: p(game) ==> game.state.FINISHED?
    ensures Count(VoidOpen(games), p) == Count(games, p) && Count(VoidOpen(games), ACTIVE) == 0
    ensures forall game :: game in games && game.Settled() ==> game in VoidOpen(games)
    ensures forall game :: game in VoidOpen(games) && game.state.FINISHED? ==> game in games
  {
    if games != [] {
      var n := |games| - 1;
      CountVoided(games[..n], p);
      assert games == games[..n] + [games[n]];
      CountAppend(VoidOpen(games[..n]), Voided(games[n]), p);
      CountAppend(VoidOpen(games[..n]), Voided(games[n]), ACTIVE);
    }
  }

  lemma {:induction false} FinishedAreWon(games: seq<Game>)
    requires forall game :: game in games && game.state.FINISHED? ==> game.winner.Some?
    ensures Count(games, PLAYED) == Count(games, WON_A) + Count(games, WON_B)
  {
    if games != [] {
      var n := |games| - 1;
      assert games == games[..n] + [games[n]];
      assert games[n] in games;
      FinishedAreWon(games[..n]);
      assert games[n].state.FINISHED? ==>
        games[n].winner.Some? && (games[n].winner.value.A? || games[n].winner.value.B?);
    }
  }

  lemma {:induction false} NumbersAre(games: seq<Game>)
    requires forall i :: 0 <= i < |games| ==> games[i].number == i + 1
    ensures MaxNumber(games) == |games|
  {
    if games != [] { NumbersAre(games[..|games| - 1]); }
  }

  // --------------------------------------------------------------------------------------- parts of an action

  /** The invariant before the next game of a series still being played is ensured. */
  ghost predicate AlmostInv(s: Series) {
    LengthOk(s.bestOf) && PlayersOk(s) && ScoreOk(s) && OutcomeOk(s) && NumbersOk(s) && !s.Over() &&
    Count(s.games, ACTIVE) <= (if s.status.PLAYING? then 1 else 0) &&
    (s.status.PENDING? || s.status.READY? || s.status.CALLED? ==>
      forall game :: game in s.games ==> game.state.PREPARED?)
  }

  lemma EnsureKeepsInv(s: Series)
    requires AlmostInv(s)
    ensures Inv(EnsureNext(s))
  {
    hide Count, MaxNumber, OutcomeOk;
    CountIn(s.games, UNPLAYED);
    if HasPrepared(s.games) {
      var i :| 0 <= i < |s.games| && s.games[i].state.PREPARED?;
      assert UNPLAYED(s.games[i]);
    } else {
      AppendKeepsInv(s);
    }
  }

  lemma AppendKeepsInv(s: Series)
    requires AlmostInv(s)
    ensures Inv(s.(games := s.games + [NewGame(MaxNumber(s.games) + 1)]))
  {
    hide Count, MaxNumber;
    NumbersAre(s.games);
    var next := NewGame(MaxNumber(s.games) + 1);
    CountAppend(s.games, next, ACTIVE);
    CountAppend(s.games, next, UNPLAYED);
    CountAppend(s.games, next, WON_A);
    CountAppend(s.games, next, WON_B);
  }

  lemma CountAll(games: seq<Game>, i: nat, game: Game)
    requires i < |games|
    ensures forall p: Game -> bool :: p == ACTIVE || p == UNPLAYED || p == WON_A || p == WON_B ==>
      Count(games[i := game], p) + (if p(games[i]) then 1 else 0) == Count(games, p) + if p(game) then 1 else 0
  {
    CountUpdate(games, i, game, ACTIVE);
    CountUpdate(games, i, game, UNPLAYED);
    CountUpdate(games, i, game, WON_A);
    CountUpdate(games, i, game, WON_B);
  }

  lemma StartedKeepsScore(s: Series)
    requires ScoreOk(s)
    ensures ScoreOk(s.(games := Started(s.games))) && Count(Started(s.games), ACTIVE) == Count(s.games, ACTIVE)
  {
    hide Count, Started;
    CountStarted(s.games, ACTIVE);
    CountStarted(s.games, WON_A);
    CountStarted(s.games, WON_B);
  }

  lemma DecideKeepsInv(s: Series, slot: Slot, reason: Reason)
    requires LengthOk(s.bestOf) && ScoreOk(s) && Count(s.games, ACTIVE) == 0
    requires reason.Games? ==> s.Wins(slot) == s.Needed() > s.Wins(slot.Other())
    requires reason.Walkover? ==> Max(s.winsA, s.winsB) < s.Needed()
    requires reason.Games? || reason.Walkover?
    ensures Inv(DecideMatch(s, slot, reason))
  {
    hide Count, Started;
    StartedKeepsScore(s);
  }

  /** A game that is being played, or a tied one while no other is played, leaves none playing when it is settled. */
  ghost predicate Settles(s: Series, i: nat) {
    Inv(s) && s.status.PLAYING? && i < |s.games| &&
    (s.games[i].Active() || (s.games[i].state.TIED? && Count(s.games, ACTIVE) == 0))
  }

  function Scored(s: Series, i: nat, slot: Slot): Series
    requires i < |s.games|
  {
    var played := s.(games := s.games[i := s.games[i].(state := FINISHED, winner := Some(slot), closed := true)]);
    if slot.A? then played.(winsA := s.winsA + 1) else played.(winsB := s.winsB + 1)
  }

  lemma ScoringKeeps(s: Series, i: nat, slot: Slot)
    requires Settles(s, i)
    ensures var scored := Scored(s, i, slot);
            LengthOk(scored.bestOf) && PlayersOk(scored) && ScoreOk(scored) && NumbersOk(scored) &&
            Count(scored.games, ACTIVE) == 0
  {
    hide Count;
    CountAll(s.games, i, s.games[i].(state := FINISHED, winner := Some(slot), closed := true));
  }

  lemma FinishKeepsInv(s: Series, i: nat, slot: Slot)
    requires Settles(s, i)
    ensures Inv(Finish(s, i, slot))
  {
    hide Count, Started, EnsureNext, ScoreOk, NumbersOk;
    ScoringKeeps(s, i, slot);
    var scored := Scored(s, i, slot);
    if Max(scored.winsA, scored.winsB) >= s.Needed() {
      DecideKeepsInv(scored, slot, Games);
    } else {
      EnsureKeepsInv(scored);
    }
  }

  lemma ReplaceKeeps(s: Series, i: nat, game: Game)
    requires Settles(s, i) && game.number == s.games[i].number && (game.state.TIED? || game.state.VOIDED?)
    ensures AlmostInv(s.(games := s.games[i := game]))
  {
    CountAll(s.games, i, game);
    hide Count;
  }

  lemma TieKeepsInv(s: Series, i: nat)
    requires Settles(s, i)
    ensures Inv(TieGame(s, i))
  {
    hide EnsureNext, Count;
    var game := s.games[i].(state := TIED, closed := true);
    ReplaceKeeps(s, i, game);
    EnsureKeepsInv(s.(games := s.games[i := game]));
  }

  /** A game that goes on being played. */
  lemma GoesOn(s: Series, i: nat, game: Game)
    requires Inv(s) && s.status.PLAYING? && i < |s.games| && s.games[i].Active() && game.Active()
    requires game.number == s.games[i].number
    ensures Inv(s.(games := s.games[i := game]))
  {
    CountAll(s.games, i, game);
    hide Count;
  }

  lemma ActiveIsPlaying(s: Series, i: nat)
    requires Inv(s) && i < |s.games| && s.games[i].Active()
    ensures s.status.PLAYING?
  {
    CountIn(s.games, ACTIVE);
    assert ACTIVE(s.games[i]);
    hide Count;
  }

  lemma TickKeepsInv(s: Series, number: nat, decision: Scoring.Decision)
    requires Inv(s)
    ensures Inv(TickGame(s, number, decision))
  {
    hide Inv, Finish, TieGame, IndexOf;
    var i := IndexOf(s.games, number);
    if i < |s.games| && s.games[i].Active() {
      ActiveIsPlaying(s, i);
      match decision {
        case Countdown =>
        case Live => GoesOn(s, i, s.games[i].(state := LIVE));
        case Verifying => GoesOn(s, i, s.games[i].(state := VERIFYING, closed := true));
        case Finish(slot, _) => FinishKeepsInv(s, i, slot);
        case Tie => TieKeepsInv(s, i);
      }
    }
  }

  lemma VoidableSettles(s: Series, i: nat)
    requires Inv(s) && !s.Over() && CanVoid(s, i)
    ensures Settles(s, i)
  {
    CountIn(s.games, ACTIVE);
    if HasActive(s.games) {
      var k :| 0 <= k < |s.games| && s.games[k].Active();
      ActiveIsPlaying(s, k);
    }
    assert forall k :: 0 <= k < |s.games| && ACTIVE(s.games[k]) ==> s.games[k].Active();
    assert s.games[i] in s.games;
    hide Count;
  }

  lemma VoidKeepsInv(s: Series, number: nat)
    requires Inv(s) && VoidGame(s, number).Some?
    ensures Inv(VoidGame(s, number).value)
  {
    hide EnsureNext, Count, Inv, IndexOf;
    var i := IndexOf(s.games, number);
    VoidableSettles(s, i);
    var game := s.games[i].(state := VOIDED, closed := true);
    ReplaceKeeps(s, i, game);
    EnsureKeepsInv(s.(games := s.games[i := game]));
  }

  lemma StartKeepsInv(s: Series, number: Option<nat>, allowed: bool)
    requires Inv(s) && StartGame(s, number, allowed).Some?
    ensures Inv(StartGame(s, number, allowed).value)
  {
    var i := StartIndex(s, number);
    CountIn(s.games, ACTIVE);
    ActiveIs(s.games);
    CountAll(s.games, i, s.games[i].(state := COUNTDOWN));
    hide Count;
  }

  lemma AnotherGame(s: Series)
    requires Inv(s) && !s.Over()
    ensures Inv(s.(games := s.games + [NewGame(MaxNumber(s.games) + 1)]))
    ensures MaxNumber(s.games + [NewGame(MaxNumber(s.games) + 1)]) == MaxNumber(s.games) + 1
  {
    var next := NewGame(MaxNumber(s.games) + 1);
    NumbersAre(s.games);
    CountAppend(s.games, next, ACTIVE);
    CountAppend(s.games, next, UNPLAYED);
    CountAppend(s.games, next, WON_A);
    CountAppend(s.games, next, WON_B);
    NumbersAre(s.games + [next]);
    hide Count, MaxNumber;
  }

  lemma {:induction false} ExtendKeepsInv(s: Series, number: nat)
    requires Inv(s) && !s.Over()
    ensures Inv(s.(games := Extended(s.games, number)))
    decreases number - MaxNumber(s.games)
  {
    hide Inv;
    if number > MaxNumber(s.games) {
      var next := NewGame(MaxNumber(s.games) + 1);
      AnotherGame(s);
      ExtendKeepsInv(s.(games := s.games + [next]), number);
    }
  }

  lemma VoidKeepsScore(s: Series)
    requires ScoreOk(s)
    ensures ScoreOk(s.(games := VoidOpen(s.games))) && Count(VoidOpen(s.games), ACTIVE) == 0
  {
    hide Count, VoidOpen;
    CountVoided(s.games, WON_A);
    CountVoided(s.games, WON_B);
  }

  lemma WalkoverKeepsInv(s: Series, slot: Slot)
    requires Inv(s) && !s.Over()
    ensures Inv(DecideMatch(s.(games := VoidOpen(s.games)), slot, Walkover))
    ensures Inv(s.(status := CANCELLED, games := Started(VoidOpen(s.games))))
  {
    hide Count, Started, VoidOpen;
    VoidKeepsScore(s);
    DecideKeepsInv(s.(games := VoidOpen(s.games)), slot, Walkover);
    StartedKeepsScore(s.(games := VoidOpen(s.games)));
  }

  // ----------------------------------------------------------------------------------------- the main results

  /** Every action keeps the invariant. */
  lemma StepKeepsInv(s: Series, act: Action)
    requires Inv(s) && Step(s, act).Some?
    ensures Inv(Step(s, act).value)
  {
    hide Count, EnsureNext, Extended, Finish, TieGame, IndexOf, VoidOpen, Started, TickGame, VoidGame;
    hide MaxNumber, CountExtra;
    match act {
      case Place(_) => PlaceKeepsInv(s, act.slot);
      case Call => if s.status.READY? { EnsureKeepsInv(s.(status := CALLED)); }
      case AddGame => EnsureKeepsInv(s);
      case Prepare(number) => ExtendKeepsInv(s, number);
      case Start(number, allowed) => StartKeepsInv(s, number, allowed);
      case Tick(number, decision) => TickKeepsInv(s, number, decision);
      case CancelGame(number) => VoidKeepsInv(s, number);
      case Declare(number, slot) =>
        var i := IndexOf(s.games, number);
        VoidableSettles(s, i);
        FinishKeepsInv(s, i, slot);
      case Finalize(number, verdict) =>
        var i := IndexOf(s.games, number);
        ActiveIsPlaying(s, i);
        if verdict.Some? { FinishKeepsInv(s, i, verdict.value); } else { TieKeepsInv(s, i); }
      case GiveWalkover(slot) => WalkoverKeepsInv(s, slot);
      case CancelMatch => WalkoverKeepsInv(s, A);
      case SetLength(_) =>
      case Correct(_) =>
    }
  }

  lemma PlaceKeepsInv(s: Series, slot: Slot)
    requires Inv(s) && !s.Over() && PlacePlayer(s, slot).Some?
    ensures Inv(PlacePlayer(s, slot).value)
  {
    hide Count;
  }

  lemma {:induction false} RunKeepsInv(s: Series, acts: seq<Action>)
    requires Inv(s)
    ensures Inv(Run(s, acts))
    decreases |acts|
  {
    hide Inv, Step;
    if acts != [] {
      if Step(s, acts[0]).Some? { StepKeepsInv(s, acts[0]); }
      RunKeepsInv(Step(s, acts[0]).GetOr(s), acts[1..]);
    }
  }

  lemma SeriesStart(bestOf: nat, prepared: nat, called: bool)
    requires LengthOk(bestOf)
    ensures Inv(BracketMatch(bestOf))
    ensures Duel(bestOf, prepared, called).Some? ==> Inv(Duel(bestOf, prepared, called).value)
  {
    NothingYet(bestOf);
    hide Inv, Count, Extended;
    if 0 < prepared <= bestOf {
      var ready := Duel(bestOf, prepared, false).value;
      ExtendKeepsInv(ready.(games := []), prepared);
      ExtendedHas(prepared);
      CalledWithGames(ready);
    }
  }

  lemma NothingYet(bestOf: nat)
    requires LengthOk(bestOf)
    ensures Inv(BracketMatch(bestOf))
    ensures Inv(Series(bestOf, false, READY, true, true, 0, 0, None, Undecided, []))
  {}

  lemma CalledWithGames(s: Series)
    requires Inv(s) && s.status.READY? && s.games != []
    ensures Inv(s.(status := CALLED))
  {
    CountIn(s.games, UNPLAYED);
    assert s.games[0] in s.games;
    assert UNPLAYED(s.games[0]);
    hide Count;
  }

  lemma ExtendedHas(number: nat)
    requires number >= 1
    ensures Extended([], number) != []
  {
    assert MaxNumber([]) == 0;
    Longer([NewGame(1)], number);
    assert [] + [NewGame(1)] == [NewGame(1)];
  }

  lemma {:induction false} Longer(games: seq<Game>, number: nat)
    ensures |Extended(games, number)| >= |games|
    decreases number - MaxNumber(games)
  {
    if number > MaxNumber(games) {
      var next := NewGame(MaxNumber(games) + 1);
      assert (games + [next])[..|games|] == games;
      Longer(games + [next], number);
    }
  }

  ghost predicate Sound(s: Series) {
    Count(s.games, ACTIVE) <= 1 && (s.Over() ==> Count(s.games, ACTIVE) == 0) &&
    s.winsA == Count(s.games, WON_A) && s.winsB == Count(s.games, WON_B) &&
    Count(s.games, PLAYED) == s.winsA + s.winsB <= s.bestOf &&
    (!s.Over() ==> Max(s.winsA, s.winsB) < s.Needed() && s.winsA + s.winsB < s.bestOf) &&
    (s.status.DECIDED? && s.reason.Games? ==>
      s.winner.Some? && s.Wins(s.winner.value) == s.Needed() > s.Wins(s.winner.value.Other())) &&
    (s.status.PLAYING? ==> HasActive(s.games) || HasPrepared(s.games)) &&
    (s.status.READY? || s.status.CALLED? || s.status.PLAYING? ==> s.knownA && s.knownB)
  }

  lemma InvIsSound(s: Series)
    requires Inv(s)
    ensures Sound(s)
  {
    hide Count;
    FinishedAreWon(s.games);
    CountIn(s.games, ACTIVE);
    CountIn(s.games, UNPLAYED);
    assert forall i :: 0 <= i < |s.games| && ACTIVE(s.games[i]) ==> s.games[i].Active();
    assert forall i :: 0 <= i < |s.games| && UNPLAYED(s.games[i]) ==> s.games[i].state.PREPARED?;
  }

  /**
   Over any run of a series, from its creation on: at most one game is being played, and none once it is over; the score
   is the games each player won; it is decided by games exactly with the wins it takes; never more games are finished
   than the series has, nor as many as that while it goes on; it is never left without a game to play; and nothing is
   called or played before both players are there.
   */
  lemma SeriesIsSound(start: Series, bestOf: nat, prepared: nat, called: bool, acts: seq<Action>)
    requires LengthOk(bestOf) && (Some(start) == Duel(bestOf, prepared, called) || start == BracketMatch(bestOf))
    ensures Sound(Run(start, acts))
  {
    hide Sound, Inv, Run, Duel, BracketMatch;
    SeriesStart(bestOf, prepared, called);
    RunKeepsInv(start, acts);
    InvIsSound(Run(start, acts));
  }

  // ------------------------------------------------------------------------------------- what is never undone

  lemma {:induction false} ExtendedKeeps(games: seq<Game>, number: nat, game: Game)
    requires game in games
    ensures game in Extended(games, number)
    decreases number - MaxNumber(games)
  {
    if number > MaxNumber(games) {
      var next := NewGame(MaxNumber(games) + 1);
      assert (games + [next])[..|games|] == games;
      ExtendedKeeps(games + [next], number, game);
    }
  }

  lemma UpdateKeeps(games: seq<Game>, i: nat, next: Game, game: Game)
    requires i < |games| && game in games && games[i] != game
    ensures game in games[i := next]
  {
    var k :| 0 <= k < |games| && games[k] == game;
    assert games[i := next][k] == game;
  }

  lemma FinishKeeps(s: Series, i: nat, slot: Slot, game: Game)
    requires i < |s.games| && game in s.games && game.Settled() && !s.games[i].Settled()
    ensures game in Finish(s, i, slot).games
  {
    hide Count, Started, MaxNumber, CountExtra;
    var next := s.games[i].(state := FINISHED, winner := Some(slot), closed := true);
    var played := s.games[i := next];
    UpdateKeeps(s.games, i, next, game);
    CountStarted(played, ACTIVE);
    assert game in Started(played);
  }

  /** A game that was won or voided stays as it was recorded, and a series that is over stays over. */
  lemma StepKeepsRecords(s: Series, act: Action, game: Game)
    requires Inv(s) && Step(s, act).Some? && game in s.games && game.Settled()
    ensures game in Step(s, act).value.games
    ensures s.Over() ==> Step(s, act).value.status == s.status
  {
    hide Count, Inv, MaxNumber, CountExtra, IndexOf, FirstPrepared, Finish, Started, VoidOpen;
    var s' := Step(s, act).value;
    match act {
      case Place(_) =>
      case Call =>
      case AddGame =>
      case Prepare(number) => ExtendedKeeps(s.games, number, game);
      case Start(number, allowed) =>
        var i := StartIndex(s, number);
        UpdateKeeps(s.games, i, s.games[i].(state := COUNTDOWN), game);
      case Tick(number, decision) => TickKeepsRecords(s, number, decision, game);
      case CancelGame(number) =>
        var i := IndexOf(s.games, number);
        UpdateKeeps(s.games, i, s.games[i].(state := VOIDED, closed := true), game);
      case Declare(number, slot) => FinishKeeps(s, IndexOf(s.games, number), slot, game);
      case Finalize(number, verdict) =>
        var i := IndexOf(s.games, number);
        if verdict.Some? { FinishKeeps(s, i, verdict.value, game); }
        else { UpdateKeeps(s.games, i, s.games[i].(state := TIED, closed := true), game); }
      case GiveWalkover(_) =>
        CountVoided(s.games, WON_A);
        CountStarted(VoidOpen(s.games), ACTIVE);
      case CancelMatch =>
        CountVoided(s.games, WON_A);
        CountStarted(VoidOpen(s.games), ACTIVE);
      case SetLength(_) =>
      case Correct(_) =>
    }
  }

  lemma TickKeepsRecords(s: Series, number: nat, decision: Scoring.Decision, game: Game)
    requires Inv(s) && game in s.games && game.Settled()
    ensures game in TickGame(s, number, decision).games
    ensures s.Over() ==> TickGame(s, number, decision).status == s.status
  {
    hide Inv, Finish;
    var i := IndexOf(s.games, number);
    if i < |s.games| && s.games[i].Active() {
      ActiveIsPlaying(s, i);
      match decision {
        case Countdown =>
        case Live => UpdateKeeps(s.games, i, s.games[i].(state := LIVE), game);
        case Verifying => UpdateKeeps(s.games, i, s.games[i].(state := VERIFYING, closed := true), game);
        case Finish(slot, _) => FinishKeeps(s, i, slot, game);
        case Tie => UpdateKeeps(s.games, i, s.games[i].(state := TIED, closed := true), game);
      }
    }
  }

  lemma {:induction false} RecordsAreKept(s: Series, acts: seq<Action>, game: Game)
    requires Inv(s) && game in s.games && game.Settled()
    ensures game in Run(s, acts).games && (s.Over() ==> Run(s, acts).status == s.status)
    decreases |acts|
  {
    hide Inv, Step;
    if acts != [] {
      if Step(s, acts[0]).Some? {
        StepKeepsInv(s, acts[0]);
        StepKeepsRecords(s, acts[0], game);
      }
      RecordsAreKept(Step(s, acts[0]).GetOr(s), acts[1..], game);
    }
  }

  lemma EnsureAddsNoActive(s: Series)
    ensures Count(EnsureNext(s).games, ACTIVE) == Count(s.games, ACTIVE)
  {
    CountAppend(s.games, NewGame(MaxNumber(s.games) + 1), ACTIVE);
  }

  lemma NoneLeftPlaying(s: Series, i: nat, slot: Slot)
    requires Settles(s, i)
    ensures !HasActive(Finish(s, i, slot).games) && !HasActive(TieGame(s, i).games)
  {
    hide Count, EnsureNext, Inv;
    var scored := Scored(s, i, slot);
    ScoringKeeps(s, i, slot);
    CountStarted(scored.games, ACTIVE);
    EnsureAddsNoActive(scored);
    var game := s.games[i].(state := TIED, closed := true);
    var tied := s.(games := s.games[i := game]);
    CountAll(s.games, i, game);
    assert Count(tied.games, ACTIVE) == 0 by { assert Inv(s); NotTwo(s); }
    EnsureAddsNoActive(tied);
    CountIn(Finish(s, i, slot).games, ACTIVE);
    CountIn(TieGame(s, i).games, ACTIVE);
    ActiveIs(Finish(s, i, slot).games);
    ActiveIs(TieGame(s, i).games);
  }

  lemma NotTwo(s: Series)
    requires Inv(s)
    ensures Count(s.games, ACTIVE) <= 1
  {}

  lemma ActiveIs(games: seq<Game>)
    ensures HasActive(games) <==> exists i :: 0 <= i < |games| && ACTIVE(games[i])
  {
    assert forall i :: 0 <= i < |games| ==> ACTIVE(games[i]) == games[i].Active();
  }

  lemma TickRecorded(s: Series, number: nat, decision: Scoring.Decision)
    requires Inv(s) && (s.Over() || exists game :: game in s.games && game.number == number && game.Settled())
    ensures TickGame(s, number, decision) == s
  {
    hide Apply, ScoreOk, OutcomeOk, Count;
    var i := IndexOf(s.games, number);
    if i < |s.games| && s.games[i].Active() { ActiveIsPlaying(s, i); }
  }

  /** Ticking again with the same decision changes nothing, nor does ticking a recorded game or a finished series. */
  lemma TickTwice(s: Series, number: nat, decision: Scoring.Decision)
    requires Inv(s)
    ensures TickGame(TickGame(s, number, decision), number, decision) == TickGame(s, number, decision)
    ensures s.Over() || (exists game :: game in s.games && game.number == number && game.Settled()) ==>
              TickGame(s, number, decision) == s
  {
    hide Finish, TieGame, ScoreOk, OutcomeOk, GamesOk, NumbersOk;
    if s.Over() || exists game :: game in s.games && game.number == number && game.Settled() {
      TickRecorded(s, number, decision);
    } else {
      TickAgain(s, number, decision);
    }
  }

  lemma TickAgain(s: Series, number: nat, decision: Scoring.Decision)
    requires Inv(s)
    ensures TickGame(TickGame(s, number, decision), number, decision) == TickGame(s, number, decision)
  {
    hide Inv, Finish, TieGame;
    var i := IndexOf(s.games, number);
    if i < |s.games| && s.games[i].Active() {
      ActiveIsPlaying(s, i);
      var s' := TickGame(s, number, decision);
      if decision.Finish? || decision.Tie? {
        NoneLeftPlaying(s, i, if decision.Finish? then decision.winner else A);
      } else {
        assert s'.games[i].number == number;
        assert forall k :: 0 <= k < |s.games| ==> s'.games[k].number == s.games[k].number;
      }
    }
  }
}
