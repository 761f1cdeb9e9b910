/** What each action on a series records: whose game it is, whose point, whose series, and what stays as it was. */
module SeriesRecords {
  import opened Common
  import opened Series
  import opened SeriesRuns
  import Scoring

  // ------------------------------------------------------------------------------------------- a game is won

  /** An action that gives game `number` to `slot`: what the scoring says, or an organizer. */
  predicate GivesGame(act: Action, number: nat, slot: Slot) {
    (act.Tick? && act.number == number && act.decision.Finish? && act.decision.winner == slot) ||
    (act.Declare? && act.number == number && act.slot == slot) ||
    (act.Finalize? && act.number == number && act.verdict == Some(slot))
  }

  /** Game `number` is there and may be given: being played, waiting for verdicts, or tied for an organizer. */
  predicate Playable(s: Series, act: Action, number: nat) {
    exists game :: game in s.games && game.number == number &&
                   if act.Tick? then game.state.COUNTDOWN? || game.state.LIVE? || game.state.VERIFYING?
                   else if act.Finalize? then game.state.VERIFYING?
                   else game.state.COUNTDOWN? || game.state.LIVE? || game.state.VERIFYING? || game.state.TIED?
  }

  lemma NumberedOnce(s: Series, number: nat)
    requires Inv(s) && !s.Over()
    ensures forall game :: game in s.games && game.number == number ==>
              1 <= number <= |s.games| && s.games[number - 1] == game && IndexOf(s.games, number) == number - 1
  {}

  lemma FinishRecords(s: Series, i: nat, slot: Slot)
    requires Settles(s, i)
    ensures var s', number := Finish(s, i, slot), s.games[i].number;
            (exists game :: game in s'.games && game.number == number) &&
            forall game :: game in s'.games && game.number == number ==>
              game.state.FINISHED? && game.winner == Some(slot) && game.closed
  {
    hide Inv, Count, Started, MaxNumber, HasPrepared;
    var played := s.games[i := s.games[i].(state := FINISHED, winner := Some(slot), closed := true)];
    SettlesMeans(s, i);
    CountStarted(played, ACTIVE);
    NumbersAre(played);
    OnlyGame(played, i);
  }

  lemma FinishScores(s: Series, i: nat, slot: Slot)
    requires Settles(s, i)
    ensures var s' := Finish(s, i, slot);
            s'.winsA == s.winsA + (if slot.A? then 1 else 0) && s'.winsB == s.winsB + (if slot.B? then 1 else 0) &&
            if (if slot.A? then s'.winsA else s'.winsB) >= s.bestOf / 2 + 1
            then s'.status.DECIDED? && s'.winner == Some(slot) && s'.reason.Games?
            else s'.status == s.status && s'.winner == s.winner && s'.reason == s.reason
  {
    hide Inv, Count, Started, MaxNumber, HasPrepared;
    SettlesMeans(s, i);
  }

  lemma SettlesMeans(s: Series, i: nat)
    requires Settles(s, i)
    ensures !s.Over() && Max(s.winsA, s.winsB) < s.Needed()
    ensures forall k :: 0 <= k < |s.games| ==> s.games[k].number == k + 1
  {}

  lemma OnlyGame(games: seq<Game>, i: nat)
    requires i < |games| && forall k :: 0 <= k < |games| ==> games[k].number == k + 1
    ensures games[i] in games && forall game :: game in games && game.number == i + 1 ==> game == games[i]
  {}

  /** Where an action that gives a game finds it. */
  lemma GivenSettles(s: Series, act: Action, number: nat, slot: Slot)
    requires Inv(s) && !s.Over() && GivesGame(act, number, slot) && Step(s, act).Some? && Playable(s, act, number)
    ensures var i := IndexOf(s.games, number);
            i < |s.games| && s.games[i].number == number && Settles(s, i) && Step(s, act) == Some(Finish(s, i, slot))
  {
    hide Finish, Count, IndexOf;
    NumberedOnce(s, number);
    var i := IndexOf(s.games, number);
    hide Inv;
    match act {
      case Tick(_, _) => ActiveIsPlaying(s, i);
      case Declare(_, _) => VoidableSettles(s, i);
      case Finalize(_, _) => ActiveIsPlaying(s, i);
    }
  }

  /**
   A game given to a player is theirs and so is the point, and the rival gets nothing; the series is decided exactly
   when that makes the wins it takes, and then it is for that player.
   */
  lemma WonGameIsRecorded(s: Series, act: Action, number: nat, slot: Slot)
    requires Inv(s) && !s.Over() && GivesGame(act, number, slot) && Step(s, act).Some? && Playable(s, act, number)
    ensures var s' := Step(s, act).value;
            (exists game :: game in s'.games && game.number == number) &&
            (forall game :: game in s'.games && game.number == number ==>
              game.state.FINISHED? && game.winner == Some(slot) && game.closed) &&
            s'.winsA == s.winsA + (if slot.A? then 1 else 0) && s'.winsB == s.winsB + (if slot.B? then 1 else 0) &&
            (s'.status.DECIDED? <==> (if slot.A? then s'.winsA else s'.winsB) >= s.bestOf / 2 + 1) &&
            (s'.status.DECIDED? ==> s'.winner == Some(slot) && s'.reason.Games?)
  {
    hide Finish, Step, Inv, Playable;
    GivenSettles(s, act, number, slot);
    FinishRecords(s, IndexOf(s.games, number), slot);
    FinishScores(s, IndexOf(s.games, number), slot);
    hide IndexOf;
  }

  /** When an organizer may declare a winner, or finalize, exactly. */
  lemma GivenExactlyWhen(s: Series, act: Action, number: nat, slot: Slot)
    requires Inv(s) && !s.Over() && GivesGame(act, number, slot) && !act.Tick?
    ensures Step(s, act).Some? <==>
              Playable(s, act, number) &&
              (act.Declare? ==>
                s.status.PLAYING? &&
                ((exists game :: game in s.games && game.number == number && game.state.TIED?) ==>
                  forall game :: game in s.games ==>
                    !game.state.COUNTDOWN? && !game.state.LIVE? && !game.state.VERIFYING?))
  {
    hide Finish, Count, IndexOf;
    NumberedOnce(s, number);
    IndexOfFinds(s, number);
    hide Inv;
    ActiveAre(s.games);
  }

  lemma IndexOfFinds(s: Series, number: nat)
    ensures IndexOf(s.games, number) < |s.games| ==>
              s.games[IndexOf(s.games, number)] in s.games && s.games[IndexOf(s.games, number)].number == number
  {}

  lemma ActiveAre(games: seq<Game>)
    ensures HasActive(games) <==>
              exists game :: game in games && (game.state.COUNTDOWN? || game.state.LIVE? || game.state.VERIFYING?)
  {
    if HasActive(games) {
      var i :| 0 <= i < |games| && games[i].Active();
      assert games[i] in games;
    }
    if game :| game in games && (game.state.COUNTDOWN? || game.state.LIVE? || game.state.VERIFYING?) {
      var i :| 0 <= i < |games| && games[i] == game;
      assert games[i].Active();
    }
  }

  // ------------------------------------------------------------------------------------ the winner of a series

  /** A walkover: the series is for that player and no game is left open. */
  lemma WalkoverIsRecorded(s: Series, slot: Slot)
    requires Inv(s) && Step(s, GiveWalkover(slot)).Some?
    ensures var s' := Step(s, GiveWalkover(slot)).value;
            s'.status.DECIDED? && s'.winner == Some(slot) && s'.reason.Walkover? &&
            s'.winsA == s.winsA && s'.winsB == s.winsB &&
            forall game :: game in s'.games ==> game.state.FINISHED? || game.state.VOIDED?
    ensures !s.Over() && if slot.A? then s.knownA else s.knownB
  {
    hide Count, Started, VoidOpen;
    OpenAreVoided(s.games);
    CountStarted(VoidOpen(s.games), WON_A);
  }

  lemma {:induction false} OpenAreVoided(games: seq<Game>)
    ensures |VoidOpen(games)| == |games|
    ensures forall i :: 0 <= i < |games| ==>
      VoidOpen(games)[i] ==
      if games[i].state.PREPARED? || games[i].state.FINISHED? || games[i].state.VOIDED? then games[i]
      else games[i].(state := VOIDED, closed := true)
  {
    if games != [] { OpenAreVoided(games[..|games| - 1]); }
  }

  /** Correcting: the series goes to that player, and its games and its score stay. */
  lemma CorrectionIsRecorded(s: Series, slot: Slot)
    requires Inv(s) && Step(s, Correct(slot)).Some?
    ensures var s' := Step(s, Correct(slot)).value;
            s'.winner == Some(slot) && s.winner == Some(slot.Other()) && s'.status.DECIDED? && s'.games == s.games &&
            s'.winsA == s.winsA && s'.winsB == s.winsB && (s'.reason.Walkover? <==> s.reason.Walkover?)
    ensures s.tournament && s.status.DECIDED? && if slot.A? then s.knownA else s.knownB
  {
    assert s.winner.Some? && s.winner.value != slot;
    assert slot.A? || slot.B?;
  }

  // ---------------------------------------------------------------------------------------- every other action

  /** What the action makes of the game it is about; nothing when it does not record a result. */
  function Recorded(act: Action, game: Game): Option<Game> {
    match act
    case Start(_, _) => Some(game.(state := COUNTDOWN))
    case CancelGame(_) => Some(game.(state := VOIDED, closed := true))
    case Finalize(_, None) => Some(game.(state := TIED, closed := true))
    case Tick(_, Live) => Some(game.(state := LIVE))
    case Tick(_, Verifying) =>
      Some(if game.state.VERIFYING? then game else game.(state := VERIFYING, closed := true))
    case Tick(_, Tie) => Some(game.(state := TIED, closed := true))
    case _ => None
  }

  /** The game an action is about: the one of its number, or the first prepared one. */
  predicate IsAbout(s: Series, act: Action, i: nat)
    requires i < |s.games|
  {
    match act
    case Start(None, _) => s.games[i].state.PREPARED? && forall k :: 0 <= k < i ==> !s.games[k].state.PREPARED?
    case Start(Some(number), _) => s.games[i].number == number
    case CancelGame(number) => s.games[i].number == number
    case Finalize(number, _) => s.games[i].number == number
    case Tick(number, _) =>
      s.games[i].number == number &&
      (s.games[i].state.COUNTDOWN? || s.games[i].state.LIVE? || s.games[i].state.VERIFYING?)
    case _ => false
  }

  /** Nothing of the series changes but its games, its stage when one starts, and maybe a next game at the end. */
  predicate OnlyRecords(s: Series, s': Series, act: Action, i: nat, game: Game)
    requires i < |s.games|
  {
    s' == s.(games := s'.games, status := if act.Start? then PLAYING else s.status) &&
    |s.games| <= |s'.games| <= |s.games| + 1 && s'.games[..|s.games|] == s.games[i := game] &&
    (|s'.games| == |s.games| + 1 ==>
      s'.games[|s.games|] == Game(|s.games| + 1, PREPARED, None, false) &&
      forall k :: 0 <= k < |s.games| ==> !s'.games[k].state.PREPARED?)
  }

  /** Whatever does not give a game to a player: what becomes of the game it is about, and nothing else. */
  lemma ResultIsRecorded(s: Series, act: Action, i: nat)
    requires Inv(s) && !s.Over() && Step(s, act).Some? && i < |s.games| && IsAbout(s, act, i)
    requires Recorded(act, s.games[i]).Some?
    ensures OnlyRecords(s, Step(s, act).value, act, i, Recorded(act, s.games[i]).value)
    ensures act.Start? ==> s.games[i].state.PREPARED? && s.knownA && s.knownB && act.allowed
  {
    hide Inv, MaxNumber, IndexOf, FirstPrepared, EnsureNext, HasActive, CanVoid;
    var game := Recorded(act, s.games[i]).value;
    Located(s, act, i);
    var next := s.(games := s.games[i := game]);
    MaxIsSize(s, i, game);
    EnsureIs(next);
  }

  lemma Located(s: Series, act: Action, i: nat)
    requires Inv(s) && !s.Over() && i < |s.games| && IsAbout(s, act, i)
    ensures act.Start? ==> StartIndex(s, act.chosen) == i
    ensures act.CancelGame? || act.Finalize? || act.Tick? ==> IndexOf(s.games, act.number) == i
  {
    hide Count;
    if act.Start? && act.chosen.None? { FirstIs(s.games, i); }
  }

  lemma {:induction false} FirstIs(games: seq<Game>, i: nat)
    requires i < |games| && games[i].state.PREPARED? && forall k :: 0 <= k < i ==> !games[k].state.PREPARED?
    ensures FirstPrepared(games) == i
  {
    if i > 0 { FirstIs(games[1..], i - 1); }
  }

  lemma MaxIsSize(s: Series, i: nat, game: Game)
    requires Inv(s) && !s.Over() && i < |s.games| && game.number == s.games[i].number
    ensures MaxNumber(s.games[i := game]) == |s.games|
  {
    hide Count;
    NumbersAre(s.games[i := game]);
  }

  lemma EnsureIs(s: Series)
    requires MaxNumber(s.games) == |s.games|
    ensures EnsureNext(s) == s.(games := EnsureNext(s).games)
    ensures EnsureNext(s).games == s.games ||
            (EnsureNext(s).games == s.games + [Game(|s.games| + 1, PREPARED, None, false)] &&
             forall k :: 0 <= k < |s.games| ==> !s.games[k].state.PREPARED?)
  {
    hide MaxNumber;
  }

  /** A player is placed in a match of the bracket as long as nothing of it has started, and it is ready with both. */
  lemma PlacedIs(s: Series, slot: Slot)
    requires Inv(s)
    ensures Step(s, Place(slot)).Some? <==>
              !s.status.DECIDED? && !s.status.CANCELLED? && forall game :: game in s.games ==> game.state.PREPARED?
    ensures Step(s, Place(slot)).Some? ==>
              var s' := Step(s, Place(slot)).value;
              s' == s.(knownA := s.knownA || slot.A?, knownB := s.knownB || slot.B?, status := s'.status) &&
              s'.status == if s'.knownA && s'.knownB && s.status.PENDING? then READY else s.status
  {
    hide Inv;
    assert (exists i :: 0 <= i < |s.games| && !s.games[i].state.PREPARED?) <==>
           exists game :: game in s.games && !game.state.PREPARED?;
  }

  /** A quick battle that is dropped: no winner, the score as it was, and no game left open or prepared. */
  lemma CancelledIs(s: Series)
    requires Inv(s)
    ensures Step(s, CancelMatch).Some? <==> !s.tournament && !s.status.DECIDED? && !s.status.CANCELLED?
    ensures Step(s, CancelMatch).Some? ==>
              var s' := Step(s, CancelMatch).value;
              s' == s.(status := CANCELLED, games := s'.games) && s'.winner.None? &&
              forall game :: game in s'.games ==> game.state.FINISHED? || game.state.VOIDED?
  {
    hide Count, Started, VoidOpen;
    OpenAreVoided(s.games);
    CountStarted(VoidOpen(s.games), WON_A);
  }

  // ------------------------------------------------------------------------------------------- games to come

  /** The games that count for nobody. */
  ghost function Extras(games: seq<Game>): set<nat> {
    set i: nat | i < |games| && (games[i].state.TIED? || games[i].state.VOIDED?)
  }

  lemma {:induction false} ExtrasAre(games: seq<Game>)
    ensures CountExtra(games) == |Extras(games)|
  {
    if games == [] {
      assert Extras(games) == {};
    } else {
      var n := |games| - 1;
      ExtrasAre(games[..n]);
      assert Extras(games) == Extras(games[..n]) + if EXTRA(games[n]) then {n} else {};
    }
  }

  /** Some games more, all of them prepared. */
  ghost predicate Continues(games: seq<Game>, more: seq<Game>, number: nat) {
    |more| == Max(|games|, number) && more[..|games|] == games &&
    forall i :: |games| <= i < |more| ==> more[i] == Game(i + 1, PREPARED, None, false)
  }

  lemma {:induction false} ExtendedIs(games: seq<Game>, number: nat)
    requires forall i :: 0 <= i < |games| ==> games[i].number == i + 1
    ensures Continues(games, Extended(games, number), number)
    decreases number - |games|
  {
    NumbersAre(games);
    if number > |games| {
      var next := NewGame(|games| + 1);
      assert (games + [next])[..|games|] == games;
      NumbersAre(games + [next]);
      ExtendedIs(games + [next], number);
    }
  }

  lemma {:induction false} IndexIs(games: seq<Game>, number: nat)
    requires forall i :: 0 <= i < |games| ==> games[i].number == i + 1
    ensures IndexOf(games, number) == if 1 <= number <= |games| then number - 1 else |games|
  {
    var i := IndexOf(games, number);
    assert 1 <= number <= |games| ==> games[number - 1].number == number;
    assert i < |games| ==> games[i].number == number;
  }

  /**
   The games that may be prepared: up to what the series can still need, a tie or a void calling for one more; the ones
   before are prepared with it.
   */
  lemma PreparedIs(s: Series, number: nat)
    requires Inv(s)
    ensures Step(s, Prepare(number)).Some? <==>
              !s.status.DECIDED? && !s.status.CANCELLED? && 1 <= number <= s.bestOf + |Extras(s.games)| &&
              (number <= |s.games| ==> s.games[number - 1].state.PREPARED?)
    ensures Step(s, Prepare(number)).Some? ==>
              var s' := Step(s, Prepare(number)).value;
              s' == s.(games := s'.games) && Continues(s.games, s'.games, number)
  {
    hide CountExtra, Extended, IndexOf, ScoreOk, OutcomeOk, GamesOk;
    ExtrasAre(s.games);
    if !s.Over() {
      ExtendedIs(s.games, number);
      IndexIs(s.games, number);
      IndexIs(Extended(s.games, number), number);
    }
  }

  /** A game is added, or the players are called, only if need be: afterwards there is one to play. */
  lemma NextIs(s: Series)
    requires Inv(s)
    ensures Step(s, AddGame).Some? <==> !s.status.DECIDED? && !s.status.CANCELLED?
    ensures Step(s, Call).Some? <==> s.status.READY? || s.status.CALLED? || s.status.PLAYING?
    ensures Step(s, AddGame).Some? ==>
              Step(s, AddGame).value == s.(games := Step(s, AddGame).value.games) &&
              OneToPlay(s.games, Step(s, AddGame).value.games)
    ensures Step(s, Call).Some? ==>
              if s.status.READY?
              then Step(s, Call).value == s.(status := CALLED, games := Step(s, Call).value.games) &&
                   OneToPlay(s.games, Step(s, Call).value.games)
              else Step(s, Call).value == s
  {
    hide Count, ScoreOk, OutcomeOk, GamesOk, MaxNumber;
    if !s.Over() {
      NumbersAre(s.games);
      EnsureIs(s);
      if HasPrepared(s.games) {
        var i :| 0 <= i < |s.games| && s.games[i].state.PREPARED?;
        assert s.games[i] in s.games;
      }
    }
  }

  ghost predicate OneToPlay(games: seq<Game>, more: seq<Game>) {
    (exists game :: game in more && game.state.PREPARED?) &&
    more == if exists game :: game in games && game.state.PREPARED? then games
            else games + [Game(|games| + 1, PREPARED, None, false)]
  }

  /** The lengths a series may have, as long as nobody has the wins that would take. */
  lemma LengthIs(s: Series, bestOf: nat)
    ensures Step(s, SetLength(bestOf)).Some? <==>
              !s.status.DECIDED? && !s.status.CANCELLED? && bestOf % 2 == 1 && bestOf <= 9 &&
              s.winsA < bestOf / 2 + 1 && s.winsB < bestOf / 2 + 1
    ensures Step(s, SetLength(bestOf)).Some? ==> Step(s, SetLength(bestOf)).value == s.(bestOf := bestOf)
  {}

  /** How a quick battle starts: called or ready, with that many games prepared and nothing played. */
  lemma DuelIs(bestOf: nat, prepared: nat, called: bool)
    ensures Duel(bestOf, prepared, called).Some? <==> bestOf % 2 == 1 && bestOf <= 9 && 1 <= prepared <= bestOf
    ensures Duel(bestOf, prepared, called).Some? ==>
              var s := Duel(bestOf, prepared, called).value;
              var status: MatchState := if called then CALLED else READY;
              s == Series(bestOf, false, status, true, true, 0, 0, None, Undecided, s.games) &&
              Continues([], s.games, prepared)
  {
    hide Extended;
    ExtendedIs([], prepared);
  }
}
