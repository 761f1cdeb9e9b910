/** A series of games between two players: what polling and the organizers can do to it (judge/arena/engine.py). */
module Series {
  import opened Common
  import Scoring

  datatype GameState = PREPARED | COUNTDOWN | LIVE | VERIFYING | FINISHED | TIED | VOIDED

  datatype Game = Game(number: nat, state: GameState, winner: Option<Slot>, closed: bool) {
    predicate Active() {
      state.COUNTDOWN? || state.LIVE? || state.VERIFYING?
    }

    /** Over for good: a tied game can still be given to a player or voided. */
    predicate Settled() {
      state.FINISHED? || state.VOIDED?
    }

    predicate WonBy(slot: Slot) {
      state.FINISHED? && winner == Some(slot)
    }
  }

  function NewGame(number: nat): Game {
    Game(number, PREPARED, None, false)
  }

  datatype MatchState = PENDING | READY | CALLED | PLAYING | DECIDED | CANCELLED

  datatype Reason = Undecided | Games | Walkover | Organizer

  datatype Series = Series(bestOf: nat, tournament: bool, status: MatchState, knownA: bool, knownB: bool,
                           winsA: nat, winsB: nat, winner: Option<Slot>, reason: Reason, games: seq<Game>)
  {
    function Needed(): nat {
      bestOf / 2 + 1
    }

    predicate Over() {
      status.DECIDED? || status.CANCELLED?
    }

    predicate Known(slot: Slot) {
      if slot.A? then knownA else knownB
    }

    function Wins(slot: Slot): nat {
      if slot.A? then winsA else winsB
    }
  }

  // ----------------------------------------------------------------------------------------------- counting

  ghost function Count(games: seq<Game>, p: Game -> bool): nat {
    if games == [] then 0 else Count(games[..|games| - 1], p) + if p(games[|games| - 1]) then 1 else 0
  }

  const ACTIVE: Game -> bool := (game: Game) => game.Active()
  const UNPLAYED: Game -> bool := (game: Game) => game.state.PREPARED?
  const PLAYED: Game -> bool := (game: Game) => game.state.FINISHED?
  const EXTRA: Game -> bool := (game: Game) => game.state.TIED? || game.state.VOIDED?
  const WON_A: Game -> bool := (game: Game) => game.WonBy(A)
  const WON_B: Game -> bool := (game: Game) => game.WonBy(B)

  function CountExtra(games: seq<Game>): nat {
    if games == [] then 0
    else CountExtra(games[..|games| - 1]) + if EXTRA(games[|games| - 1]) then 1 else 0
  }

  predicate HasActive(games: seq<Game>) {
    exists i :: 0 <= i < |games| && games[i].Active()
  }

  predicate HasPrepared(games: seq<Game>) {
    exists i :: 0 <= i < |games| && games[i].state.PREPARED?
  }

  function MaxNumber(games: seq<Game>): nat {
    if games == [] then 0 else Max(MaxNumber(games[..|games| - 1]), games[|games| - 1].number)
  }

  /** Where the game with some number is, or the length. */
  function IndexOf(games: seq<Game>, number: nat): (i: nat)
    ensures i <= |games| && (i < |games| ==> games[i].number == number)
    ensures forall k :: 0 <= k < i ==> games[k].number != number
  {
    if games == [] || games[0].number == number then 0 else 1 + IndexOf(games[1..], number)
  }

  /** Where the first prepared game is, or the length. */
  function FirstPrepared(games: seq<Game>): (i: nat)
    ensures i <= |games| && (i < |games| ==> games[i].state.PREPARED?)
    ensures i == |games| <==> !HasPrepared(games)
  {
    if games == [] || games[0].state.PREPARED? then 0 else 1 + FirstPrepared(games[1..])
  }

  // --------------------------------------------------------------------------------------- parts of an action

  function EnsureNext(s: Series): Series {
    if HasPrepared(s.games) then s else s.(games := s.games + [NewGame(MaxNumber(s.games) + 1)])
  }

  /** _game_number(): the games up to some number. */
  function Extended(games: seq<Game>, number: nat): seq<Game>
    decreases number - MaxNumber(games)
  {
    if number <= MaxNumber(games) then games
    else
      assert (games + [NewGame(MaxNumber(games) + 1)])[..|games|] == games;
      Extended(games + [NewGame(MaxNumber(games) + 1)], number)
  }

  function Started(games: seq<Game>): seq<Game> {
    if games == [] then []
    else
      var last := games[|games| - 1];
      Started(games[..|games| - 1]) + if last.state.PREPARED? then [] else [last]
  }

  function Voided(game: Game): Game {
    if game.Active() || game.state.TIED? then game.(state := VOIDED, closed := true) else game
  }

  function VoidOpen(games: seq<Game>): seq<Game> {
    if games == [] then [] else VoidOpen(games[..|games| - 1]) + [Voided(games[|games| - 1])]
  }

  function DecideMatch(s: Series, slot: Slot, reason: Reason): Series {
    s.(status := DECIDED, winner := Some(slot), reason := reason, games := Started(s.games))
  }

  function Finish(s: Series, i: nat, slot: Slot): Series
    requires i < |s.games|
  {
    var played := s.(games := s.games[i := s.games[i].(state := FINISHED, winner := Some(slot), closed := true)]);
    if s.Over() then played
    else
      var scored := if slot.A? then played.(winsA := s.winsA + 1) else played.(winsB := s.winsB + 1);
      if Max(scored.winsA, scored.winsB) >= s.Needed() then DecideMatch(scored, slot, Games) else EnsureNext(scored)
  }

  function TieGame(s: Series, i: nat): Series
    requires i < |s.games|
  {
    var tied := s.(games := s.games[i := s.games[i].(state := TIED, closed := true)]);
    if s.Over() then tied else EnsureNext(tied)
  }

  function Apply(s: Series, i: nat, decision: Scoring.Decision): Series
    requires i < |s.games|
  {
    match decision
    case Countdown => s
    case Live => s.(games := s.games[i := s.games[i].(state := LIVE)])
    case Verifying => if s.games[i].state.VERIFYING? then s
      else s.(games := s.games[i := s.games[i].(state := VERIFYING, closed := true)])
    case Finish(slot, _) => Finish(s, i, slot)
    case Tie => TieGame(s, i)
  }

  // ---------------------------------------------------------------------------------------------- the actions

  datatype Action =
    | Place(slot: Slot)                                  // the bracket sends a player here
    | Call
    | AddGame
    | Prepare(number: nat)
    | Start(chosen: Option<nat>, allowed: bool)          // allowed: problems, languages and players are in order
    | Tick(number: nat, decision: Scoring.Decision)      // what the scoring says of the game now
    | CancelGame(number: nat)
    | Declare(number: nat, slot: Slot)
    | Finalize(number: nat, verdict: Option<Slot>)       // what the judged attempts say; nobody: a tie
    | GiveWalkover(slot: Slot)
    | CancelMatch
    | SetLength(bestOf: nat)
    | Correct(slot: Slot)                                // set_winner() of a tournament

  predicate LengthOk(bestOf: nat) {
    bestOf == 1 || bestOf == 3 || bestOf == 5 || bestOf == 7 || bestOf == 9
  }

  /** _refuse_while_another_runs() */
  predicate AnotherRuns(s: Series, i: nat)
    requires i < |s.games|
  {
    s.games[i].state.TIED? && HasActive(s.games)
  }

  predicate CanVoid(s: Series, i: nat)
  {
    i < |s.games| && (s.games[i].Active() || s.games[i].state.TIED?) && !AnotherRuns(s, i)
  }

  function StartIndex(s: Series, number: Option<nat>): nat {
    if number.Some? then IndexOf(s.games, number.value) else FirstPrepared(s.games)
  }

  function PlacePlayer(s: Series, slot: Slot): Option<Series> {
    if exists i :: 0 <= i < |s.games| && !s.games[i].state.PREPARED? then None
    else
      var placed := if slot.A? then s.(knownA := true) else s.(knownB := true);
      Some(if placed.knownA && placed.knownB && s.status.PENDING? then placed.(status := READY) else placed)
  }

  function CallMatch(s: Series): Option<Series> {
    if s.status.CALLED? || s.status.PLAYING? then Some(s)
    else if !s.status.READY? || !s.knownA || !s.knownB then None
    else Some(EnsureNext(s.(status := CALLED)))
  }

  function PrepareGame(s: Series, number: nat): Option<Series> {
    if s.Over() || !(1 <= number <= s.bestOf + CountExtra(s.games)) then None
    else
      var games := if IndexOf(s.games, number) < |s.games| then s.games else Extended(s.games, number);
      var i := IndexOf(games, number);
      if i < |games| && games[i].state.PREPARED? then Some(s.(games := games)) else None
  }

  function StartGame(s: Series, number: Option<nat>, allowed: bool): Option<Series> {
    var i := StartIndex(s, number);
    if !(s.status.READY? || s.status.CALLED? || s.status.PLAYING?) || !s.knownA || !s.knownB then None
    else if HasActive(s.games) || i >= |s.games| || !s.games[i].state.PREPARED? || !allowed then None
    else Some(s.(status := PLAYING, games := s.games[i := s.games[i].(state := COUNTDOWN)]))
  }

  function TickGame(s: Series, number: nat, decision: Scoring.Decision): Series {
    var i := IndexOf(s.games, number);
    if i < |s.games| && s.games[i].Active() then Apply(s, i, decision) else s
  }

  function VoidGame(s: Series, number: nat): Option<Series> {
    var i := IndexOf(s.games, number);
    if s.Over() || !CanVoid(s, i) then None
    else
      var voided := s.(games := s.games[i := s.games[i].(state := VOIDED, closed := true)]);
      Some(if s.status.PLAYING? then EnsureNext(voided) else voided)
  }

  function DeclareWinner(s: Series, number: nat, slot: Slot): Option<Series> {
    var i := IndexOf(s.games, number);
    if !s.status.PLAYING? || !CanVoid(s, i) then None else Some(Finish(s, i, slot))
  }

  function FinalizeGame(s: Series, number: nat, verdict: Option<Slot>): Option<Series> {
    var i := IndexOf(s.games, number);
    if s.Over() || i >= |s.games| || !s.games[i].state.VERIFYING? then None
    else Some(if verdict.Some? then Finish(s, i, verdict.value) else TieGame(s, i))
  }

  /** One action: None when it is refused. */
  function Step(s: Series, act: Action): Option<Series> {
    match act
    case Place(slot) => if s.Over() then None else PlacePlayer(s, slot)
    case Call => CallMatch(s)
    case AddGame => if s.Over() then None else Some(EnsureNext(s))
    case Prepare(number) => PrepareGame(s, number)
    case Start(number, allowed) => StartGame(s, number, allowed)
    case Tick(number, decision) => Some(TickGame(s, number, decision))
    case CancelGame(number) => VoidGame(s, number)
    case Declare(number, slot) => DeclareWinner(s, number, slot)
    case Finalize(number, verdict) => FinalizeGame(s, number, verdict)
    case GiveWalkover(slot) =>
      if s.Over() || !s.Known(slot) then None
      else Some(DecideMatch(s.(games := VoidOpen(s.games)), slot, Walkover))
    case CancelMatch =>
      if s.tournament || s.Over() then None
      else Some(s.(status := CANCELLED, games := Started(VoidOpen(s.games))))
    case SetLength(n) =>
      if s.Over() || !LengthOk(n) || n / 2 + 1 <= Max(s.winsA, s.winsB) then None else Some(s.(bestOf := n))
    case Correct(slot) =>
      if !s.tournament || !s.status.DECIDED? || s.winner == Some(slot) || !s.Known(slot) then None
      else Some(s.(winner := Some(slot), reason := if s.reason.Walkover? then Walkover else Organizer))
  }

  /** Whatever is asked for, in any order; a refused action changes nothing. */
  function Run(s: Series, acts: seq<Action>): Series
    decreases |acts|
  {
    if acts == [] then s else Run(Step(s, acts[0]).GetOr(s), acts[1..])
  }

  /** create_duel(): the games prepared in advance, at most as many as the series has. */
  function Duel(bestOf: nat, prepared: nat, called: bool): Option<Series> {
    if !LengthOk(bestOf) || prepared == 0 || prepared > bestOf then None
    else
      Some(Series(bestOf, false, if called then CALLED else READY, true, true, 0, 0, None, Undecided,
                  Extended([], prepared)))
  }

  /** A match of a bracket before anything happens in it. */
  function BracketMatch(bestOf: nat): Series {
    Series(bestOf, true, PENDING, false, false, 0, 0, None, Undecided, [])
  }
}
