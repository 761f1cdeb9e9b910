/** The replay of the ranking of the duels (judge/arena/rating.py): every battle that counts, from the start. */
module DuelRanking {
  import opened Common
  import opened Deviation
  import opened Ordering

  const START_RATING: real := 1500.0
  const START_VOLATILITY: real := 0.06
  const PERIOD: int := 7 * 24 * 60 * 60 * 1_000_000  // in microseconds

  /** A game that counts: a finished one with a winner, of a battle that counts. */
  datatype GameRow = GameRow(id: nat, a: nat, b: nat, number: nat, winner: Slot, finishedAt: Option<int>)

  datatype Battle = Battle(id: nat, a: nat, b: nat, winners: seq<Slot>, time: int)

  datatype Form = Form(rating: real, deviation: real, volatility: real)

  datatype Result = Result(rating: real, deviation: real, won: bool)

  /** The parts of Glicko-2 that are not worked out here: a rating period with results, and the square root. */
  datatype Glicko = Glicko(rate: (Form, seq<Result>) -> Form, root: real -> real)

  datatype Player = Player(form: Form, games: nat, wins: nat, battles: nat, lastPlayed: int)

  datatype Change = Change(time: int, ratingBefore: real, form: Form, games: nat, wins: nat, gamesTotal: nat)

  datatype Table = Table(players: map<nat, Player>, changes: map<(nat, nat), Change>)

  // ------------------------------------------------------------------------------------- the battles in order

  predicate Earlier(x: Battle, y: Battle) {
    x.time < y.time || (x.time == y.time && x.id < y.id)
  }

  const EARLIER: (Battle, Battle) -> bool := (x, y) => Earlier(x, y)

  ghost predicate InOrder(battles: seq<Battle>) {
    forall i, j :: 0 <= i < j < |battles| ==> Earlier(battles[i], battles[j])
  }

  /** By battle, then by the number of the game. */
  predicate Precedes(x: GameRow, y: GameRow) {
    x.id < y.id || (x.id == y.id && x.number < y.number)
  }

  const PRECEDES: (GameRow, GameRow) -> bool := (x, y) => Precedes(x, y)

  /** The games that count: those of a battle name the same two players and have different numbers. */
  ghost predicate Countable(games: set<GameRow>) {
    forall x, y :: x in games && y in games && x.id == y.id ==>
      x.a == y.a && x.b == y.b && x.a != x.b && (x.number == y.number ==> x == y)
  }

  /** How a query lists them. */
  ghost predicate Lists(games: set<GameRow>, rows: seq<GameRow>) {
    Sorted(rows, PRECEDES) && forall row :: row in rows <==> row in games
  }

  /** The query of _battles(). */
  method Query(games: set<GameRow>) returns (rows: seq<GameRow>)
    requires Countable(games)
    ensures Lists(games, rows)
  {
    rows := [];
    var left := games;
    while left != {}
      invariant left <= games && Lists(games - left, rows)
      decreases left
    {
      var row :| row in left;
      assert forall x :: x in rows ==> x in games && x != row;
      rows := Insert(rows, row, PRECEDES);
      left := left - {row};
    }
  }

  lemma ListedOnce(games: set<GameRow>, rows: seq<GameRow>, rows': seq<GameRow>)
    requires Lists(games, rows) && Lists(games, rows')
    ensures rows == rows'
  {
    OneOrder(rows, rows', PRECEDES);
  }

  function WinnersOf(rows: seq<GameRow>, id: nat): seq<Slot> {
    if rows == [] then []
    else WinnersOf(rows[..|rows| - 1], id) + if rows[|rows| - 1].id == id then [rows[|rows| - 1].winner] else []
  }

  /** When the last game of a battle finished, as far as it is known. */
  function LastOf(rows: seq<GameRow>, id: nat): Option<int> {
    if rows == [] then None
    else
      var row, last := rows[|rows| - 1], LastOf(rows[..|rows| - 1], id);
      if row.id != id || row.finishedAt.None? then last
      else Some(if last.None? then row.finishedAt.value else Max(last.value, row.finishedAt.value))
  }

  /** A battle of the rows: its players, its winners game by game and the end of its last game. */
  ghost predicate IsBattle(rows: seq<GameRow>, battle: Battle) {
    (exists i :: 0 <= i < |rows| && rows[i].id == battle.id && rows[i].a == battle.a && rows[i].b == battle.b) &&
    battle.winners == WinnersOf(rows, battle.id) && LastOf(rows, battle.id) == Some(battle.time)
  }

  ghost predicate Joined(rows: seq<GameRow>) {
    forall i, j :: 0 <= i < |rows| && 0 <= j < |rows| && rows[i].id == rows[j].id ==>
      rows[i].a == rows[j].a && rows[i].b == rows[j].b && rows[i].a != rows[i].b
  }

  lemma ListedJoined(games: set<GameRow>, rows: seq<GameRow>)
    requires Countable(games) && Lists(games, rows)
    ensures Joined(rows)
  {
    assert forall i :: 0 <= i < |rows| ==> rows[i] in games;
  }

  /** The battles of the games that count, in order. */
  ghost predicate BattlesOf(games: set<GameRow>, battles: seq<Battle>) {
    InOrder(battles) &&
    exists rows :: Lists(games, rows) && forall battle :: battle in battles <==> IsBattle(rows, battle)
  }

  datatype Draft = Draft(a: nat, b: nat, winners: seq<Slot>, time: Option<int>)

  ghost predicate DraftsAre(rows: seq<GameRow>, drafts: map<nat, Draft>) {
    (forall id :: id in drafts <==> exists i :: 0 <= i < |rows| && rows[i].id == id) &&
    (forall id :: id in drafts ==>
      drafts[id].winners == WinnersOf(rows, id) && drafts[id].time == LastOf(rows, id) &&
      exists i :: 0 <= i < |rows| && rows[i].id == id && rows[i].a == drafts[id].a && rows[i].b == drafts[id].b)
  }

  lemma {:induction false} NoRows(rows: seq<GameRow>, id: nat)
    requires forall i :: 0 <= i < |rows| ==> rows[i].id != id
    ensures WinnersOf(rows, id) == [] && LastOf(rows, id) == None
  {
    if rows != [] { NoRows(rows[..|rows| - 1], id); }
  }

  method Drafts(rows: seq<GameRow>) returns (drafts: map<nat, Draft>)
    ensures DraftsAre(rows, drafts)
  {
    drafts := map[];
    for i := 0 to |rows|
      invariant DraftsAre(rows[..i], drafts)
    {
      var row := rows[i];
      if row.id !in drafts { NoRows(rows[..i], row.id); }
      var draft := if row.id in drafts then drafts[row.id] else Draft(row.a, row.b, [], row.finishedAt);
      draft := draft.(winners := draft.winners + [row.winner]);
      if row.finishedAt.Some? && (draft.time.None? || row.finishedAt.value > draft.time.value) {
        draft := draft.(time := row.finishedAt);
      }
      DraftNext(rows[..i], row, drafts, draft);
      assert rows[..i + 1] == rows[..i] + [row];
      drafts := drafts[row.id := draft];
    }
    assert rows[..|rows|] == rows;
  }

  lemma DraftNext(rows: seq<GameRow>, row: GameRow, drafts: map<nat, Draft>, draft: Draft)
    requires DraftsAre(rows, drafts)
    requires draft.winners == WinnersOf(rows, row.id) + [row.winner] && draft.time == LastOf(rows + [row], row.id)
    requires if row.id in drafts then draft.a == drafts[row.id].a && draft.b == drafts[row.id].b
             else draft.a == row.a && draft.b == row.b
    ensures DraftsAre(rows + [row], drafts[row.id := draft])
  {
    hide WinnersOf, LastOf;
    var more, next := rows + [row], drafts[row.id := draft];
    forall id ensures id in next <==> exists i :: 0 <= i < |more| && more[i].id == id {
      if id in drafts {
        var i :| 0 <= i < |rows| && rows[i].id == id;
        assert more[i].id == id;
      }
      assert more[|rows|] == row;
    }
    forall id | id in next
      ensures next[id].winners == WinnersOf(more, id) && next[id].time == LastOf(more, id)
      ensures exists i :: 0 <= i < |more| && more[i].id == id && more[i].a == next[id].a && more[i].b == next[id].b
    {
      RowAdds(rows, row, id);
      if id in drafts {
        var i :| 0 <= i < |rows| && rows[i].id == id && rows[i].a == drafts[id].a && rows[i].b == drafts[id].b;
        assert more[i] == rows[i];
      } else {
        assert more[|rows|] == row;
      }
    }
  }

  lemma RowAdds(rows: seq<GameRow>, row: GameRow, id: nat)
    ensures WinnersOf(rows + [row], id) == WinnersOf(rows, id) + if row.id == id then [row.winner] else []
    ensures row.id != id ==> LastOf(rows + [row], id) == LastOf(rows, id)
  {
    assert (rows + [row])[..|rows|] == rows;
  }

  /** _battles(): in the order they count; a battle without a known time is left out. */
  method Battles(games: set<GameRow>) returns (battles: seq<Battle>)
    requires Countable(games)
    ensures BattlesOf(games, battles)
  {
    var rows := Query(games);
    ListedJoined(games, rows);
    var drafts := Drafts(rows);
    battles := OrderDrafts(drafts);
    forall battle ensures battle in battles <==> IsBattle(rows, battle) { MadeIs(rows, drafts, battle); }
  }

  method OrderDrafts(drafts: map<nat, Draft>) returns (battles: seq<Battle>)
    ensures InOrder(battles) && forall battle :: battle in battles <==> Made(drafts, battle)
  {
    battles := [];
    var left := drafts.Keys;
    while left != {}
      invariant left <= drafts.Keys && Sorted(battles, EARLIER)
      invariant forall battle :: battle in battles <==> battle.id in drafts.Keys - left && Made(drafts, battle)
      decreases left
    {
      var id :| id in left;
      if drafts[id].time.Some? {
        var draft := drafts[id];
        battles := Insert(battles, Battle(id, draft.a, draft.b, draft.winners, draft.time.value), EARLIER);
      }
      left := left - {id};
    }
  }

  predicate Made(drafts: map<nat, Draft>, battle: Battle) {
    battle.id in drafts &&
    var draft := drafts[battle.id];
    draft.time.Some? && battle == Battle(battle.id, draft.a, draft.b, draft.winners, draft.time.value)
  }

  lemma MadeIs(rows: seq<GameRow>, drafts: map<nat, Draft>, battle: Battle)
    requires Joined(rows) && DraftsAre(rows, drafts)
    ensures Made(drafts, battle) <==> IsBattle(rows, battle)
  {}

  /** The battles, and so the replay, depend only on which games count: there is one way to list and to order them. */
  lemma SameGamesSameBattles(games: set<GameRow>, x: seq<Battle>, y: seq<Battle>)
    requires BattlesOf(games, x) && BattlesOf(games, y)
    ensures x == y
  {
    var rows :| Lists(games, rows) && forall battle :: battle in x <==> IsBattle(rows, battle);
    var rows' :| Lists(games, rows') && forall battle :: battle in y <==> IsBattle(rows', battle);
    ListedOnce(games, rows, rows');
    OneOrder(x, y, EARLIER);
  }

  // -------------------------------------------------------------------------------------------- the replay

  function Weeks(time: int, last: int): int {
    if time >= last then (time - last) / PERIOD else -((last - time) / PERIOD)
  }

  function Before(g: Glicko, t: Table, player: nat, time: int): Form {
    if player !in t.players then Form(START_RATING, START_DEVIATION, START_VOLATILITY)
    else
      var form := t.players[player].form;
      var weeks := Weeks(time, t.players[player].lastPlayed);
      form.(deviation := Grown(g.root, form.deviation, form.volatility, weeks))
  }

  function ResultsOf(winners: seq<Slot>, slot: Slot, rival: Form): seq<Result> {
    seq(|winners|, i requires 0 <= i < |winners| => Result(rival.rating, rival.deviation, winners[i] == slot))
  }

  function WinsOf(winners: seq<Slot>, slot: Slot): nat {
    if winners == [] then 0
    else WinsOf(winners[..|winners| - 1], slot) + if winners[|winners| - 1] == slot then 1 else 0
  }

  function StateOf(t: Table, player: nat, time: int): Player {
    if player in t.players then t.players[player]
    else Player(Form(START_RATING, START_DEVIATION, START_VOLATILITY), 0, 0, 0, time)
  }

  /** One side of a battle. */
  function Played(g: Glicko, t: Table, battle: Battle, player: nat, slot: Slot, before: Form, rival: Form): Table {
    var after := g.rate(before, ResultsOf(battle.winners, slot, rival));
    var state, wins := StateOf(t, player, battle.time), WinsOf(battle.winners, slot);
    var games := state.games + |battle.winners|;
    Table(t.players[player := Player(after, games, state.wins + wins, state.battles + 1, battle.time)],
          t.changes[(battle.id, player) := Change(battle.time, before.rating, after, |battle.winners|, wins, games)])
  }

  /** Both sides, each against the rating the other had before the battle. */
  function After(g: Glicko, t: Table, battle: Battle): Table {
    var a, b := Before(g, t, battle.a, battle.time), Before(g, t, battle.b, battle.time);
    Played(g, Played(g, t, battle, battle.a, A, a, b), battle, battle.b, B, b, a)
  }

  function Replay(g: Glicko, battles: seq<Battle>): Table {
    if battles == [] then Table(map[], map[])
    else After(g, Replay(g, battles[..|battles| - 1]), battles[|battles| - 1])
  }

  method CountWins(winners: seq<Slot>, slot: Slot) returns (wins: nat)
    ensures wins == WinsOf(winners, slot)
  {
    wins := 0;
    for i := 0 to |winners|
      invariant wins == WinsOf(winners[..i], slot)
    {
      assert winners[..i + 1][..i] == winners[..i];
      if winners[i] == slot { wins := wins + 1; }
    }
    assert winners[..|winners|] == winners;
  }

  /** compute() */
  method Compute(g: Glicko, battles: seq<Battle>) returns (players: map<nat, Player>, changes: map<(nat, nat), Change>)
    ensures Table(players, changes) == Replay(g, battles)
  {
    hide Grown;
    players, changes := map[], map[];
    for i := 0 to |battles|
      invariant Table(players, changes) == Replay(g, battles[..i])
    {
      var battle := battles[i];
      assert battles[..i + 1][..i] == battles[..i];
      var a := Before(g, Table(players, changes), battle.a, battle.time);
      var b := Before(g, Table(players, changes), battle.b, battle.time);
      players, changes := Record(g, players, changes, battle, battle.a, A, a, b);
      players, changes := Record(g, players, changes, battle, battle.b, B, b, a);
    }
    assert battles[..|battles|] == battles;
  }

  method Record(g: Glicko, players: map<nat, Player>, changes: map<(nat, nat), Change>, battle: Battle,
                player: nat, slot: Slot, before: Form, rival: Form)
    returns (players': map<nat, Player>, changes': map<(nat, nat), Change>)
    ensures Table(players', changes') == Played(g, Table(players, changes), battle, player, slot, before, rival)
  {
    var after := g.rate(before, ResultsOf(battle.winners, slot, rival));
    var wins := CountWins(battle.winners, slot);
    var state := StateOf(Table(players, changes), player, battle.time);
    var games := state.games + |battle.winners|;
    players' := players[player := Player(after, games, state.wins + wins, state.battles + 1, battle.time)];
    changes' := changes[(battle.id, player) :=
      Change(battle.time, before.rating, after, |battle.winners|, wins, games)];
  }

  // ---------------------------------------------------------------------------------- what the replay adds up to

  /** Battles in order, each between two players and once. */
  ghost predicate Replayable(battles: seq<Battle>) {
    InOrder(battles) && (forall i :: 0 <= i < |battles| ==> battles[i].a != battles[i].b) &&
    forall i, j :: 0 <= i < j < |battles| ==> battles[i].id != battles[j].id
  }

  /** The battles of the games that count can be replayed. */
  lemma BattlesReplay(games: set<GameRow>, battles: seq<Battle>)
    requires Countable(games) && BattlesOf(games, battles)
    ensures Replayable(battles)
  {
    var rows :| Lists(games, rows) && forall battle :: battle in battles <==> IsBattle(rows, battle);
    ListedJoined(games, rows);
    forall i, j | 0 <= i < j < |battles| ensures battles[i].id != battles[j].id {
      assert IsBattle(rows, battles[i]) && IsBattle(rows, battles[j]) && Earlier(battles[i], battles[j]);
    }
    forall i | 0 <= i < |battles| ensures battles[i].a != battles[i].b { assert IsBattle(rows, battles[i]); }
  }

  /** Nobody played after the last battle so far. */
  lemma {:induction false} NobodyAhead(g: Glicko, battles: seq<Battle>, i: nat, player: nat)
    requires InOrder(battles) && i < |battles| && player in Replay(g, battles[..i]).players
    ensures Replay(g, battles[..i]).players[player].lastPlayed <= battles[i].time
  {
    hide Grown, Before, Weeks;
    assert battles[..i][..i - 1] == battles[..i - 1];
    var last := battles[i - 1];
    assert Earlier(last, battles[i]);
    if player != last.a && player != last.b { NobodyAhead(g, battles, i - 1, player); }
  }

  /** The weeks a deviation grows are never negative: whole weeks, rounded down. */
  lemma NeverBackwards(g: Glicko, battles: seq<Battle>, i: nat, player: nat)
    requires InOrder(battles) && i < |battles| && player in Replay(g, battles[..i]).players
    ensures var last := Replay(g, battles[..i]).players[player].lastPlayed;
            var weeks := Weeks(battles[i].time, last);
            weeks >= 0 && weeks * PERIOD <= battles[i].time - last < (weeks + 1) * PERIOD
  {
    hide Replay;
    NobodyAhead(g, battles, i, player);
  }

  /** What a player's changes say of the battles so far. */
  function GamesIn(t: Table, battles: seq<Battle>, player: nat): nat {
    if battles == [] then 0
    else
      var key := (battles[|battles| - 1].id, player);
      GamesIn(t, battles[..|battles| - 1], player) + if key in t.changes then t.changes[key].games else 0
  }

  function WinsIn(t: Table, battles: seq<Battle>, player: nat): nat {
    if battles == [] then 0
    else
      var key := (battles[|battles| - 1].id, player);
      WinsIn(t, battles[..|battles| - 1], player) + if key in t.changes then t.changes[key].wins else 0
  }

  function ChangesIn(t: Table, battles: seq<Battle>, player: nat): nat {
    if battles == [] then 0
    else
      var key := (battles[|battles| - 1].id, player);
      ChangesIn(t, battles[..|battles| - 1], player) + if key in t.changes then 1 else 0
  }

  /** Changes of other battles say nothing about these. */
  lemma {:induction false} SumsAlike(t: Table, t': Table, battles: seq<Battle>, player: nat)
    requires forall i {:trigger battles[i]} :: 0 <= i < |battles| ==>
      var key := (battles[i].id, player);
      (key in t.changes <==> key in t'.changes) && (key in t.changes ==> t.changes[key] == t'.changes[key])
    ensures GamesIn(t, battles, player) == GamesIn(t', battles, player)
    ensures WinsIn(t, battles, player) == WinsIn(t', battles, player)
    ensures ChangesIn(t, battles, player) == ChangesIn(t', battles, player)
  {
    if battles != [] { SumsAlike(t, t', battles[..|battles| - 1], player); }
  }

  lemma {:induction false} ChangesAre(g: Glicko, battles: seq<Battle>, key: (nat, nat))
    ensures key in Replay(g, battles).changes <==>
            exists i :: 0 <= i < |battles| && battles[i].id == key.0 && (battles[i].a == key.1 || battles[i].b == key.1)
  {
    hide Grown, Before;
    if battles != [] {
      var n := |battles| - 1;
      ChangesAre(g, battles[..n], key);
      if i :| 0 <= i < n && battles[i].id == key.0 && (battles[i].a == key.1 || battles[i].b == key.1) {
        assert battles[..n][i] == battles[i];
      }
    }
  }

  /** A battle changes nothing recorded of the battles before it. */
  lemma OldChangesStay(g: Glicko, battles: seq<Battle>, player: nat)
    requires Replayable(battles) && battles != []
    ensures var before, n := battles[..|battles| - 1], |battles| - 1;
            var t, t' := Replay(g, before), Replay(g, battles);
            GamesIn(t', before, player) == GamesIn(t, before, player) &&
            WinsIn(t', before, player) == WinsIn(t, before, player) &&
            ChangesIn(t', before, player) == ChangesIn(t, before, player) &&
            (battles[n].id, player) !in t.changes
  {
    hide Grown, Before;
    var n := |battles| - 1;
    SumsAlike(Replay(g, battles[..n]), Replay(g, battles), battles[..n], player);
    ChangesAre(g, battles[..n], (battles[n].id, player));
  }

  ghost predicate TotalsOk(t: Table, battles: seq<Battle>, player: nat) {
    if player in t.players then
      t.players[player].games == GamesIn(t, battles, player) && t.players[player].wins == WinsIn(t, battles, player) &&
      t.players[player].battles == ChangesIn(t, battles, player) > 0
    else ChangesIn(t, battles, player) == 0 && GamesIn(t, battles, player) == 0 && WinsIn(t, battles, player) == 0
  }

  /** The totals of every player are the sums of their changes, and only who played is in the table. */
  lemma {:induction false} TotalsAreSums(g: Glicko, battles: seq<Battle>, player: nat)
    requires Replayable(battles)
    ensures TotalsOk(Replay(g, battles), battles, player)
  {
    hide After, TotalsOk, GamesIn, WinsIn, ChangesIn;
    if battles != [] {
      var n := |battles| - 1;
      OldChangesStay(g, battles, player);
      TotalsAreSums(g, battles[..n], player);
      TotalsAfter(g, Replay(g, battles[..n]), battles, player);
    } else {
      NoTotals(player);
    }
  }

  lemma NoTotals(player: nat)
    ensures TotalsOk(Table(map[], map[]), [], player)
  {}

  lemma TotalsAfter(g: Glicko, t: Table, battles: seq<Battle>, player: nat)
    requires battles != [] && battles[|battles| - 1].a != battles[|battles| - 1].b
    requires TotalsOk(t, battles[..|battles| - 1], player) && (battles[|battles| - 1].id, player) !in t.changes
    requires var before, t' := battles[..|battles| - 1], After(g, t, battles[|battles| - 1]);
             GamesIn(t', before, player) == GamesIn(t, before, player) &&
             WinsIn(t', before, player) == WinsIn(t, before, player) &&
             ChangesIn(t', before, player) == ChangesIn(t, before, player)
    ensures TotalsOk(After(g, t, battles[|battles| - 1]), battles, player)
  {
    hide Before, ResultsOf, WinsOf;
  }

  ghost function SumOver(keys: set<nat>, players: map<nat, Player>, f: Player -> nat): nat
    requires keys <= players.Keys
  {
    if keys == {} then 0
    else
      var key := Pick(keys);
      SumOver(keys - {key}, players, f) + f(players[key])
  }

  ghost function Pick(keys: set<nat>): (key: nat)
    requires keys != {}
    ensures key in keys
  {
    var key :| key in keys; key
  }

  lemma {:induction false} SumTakes(keys: set<nat>, players: map<nat, Player>, f: Player -> nat, key: nat)
    requires keys <= players.Keys && key in keys
    ensures SumOver(keys, players, f) == SumOver(keys - {key}, players, f) + f(players[key])
    decreases |keys|
  {
    var first := Pick(keys);
    if first != key {
      SumTakes(keys - {first}, players, f, key);
      SumTakes(keys - {key}, players, f, first);
      assert keys - {first} - {key} == keys - {key} - {first};
    }
  }

  lemma {:induction false} SumIgnores(keys: set<nat>, players: map<nat, Player>, key: nat, player: Player,
                                      f: Player -> nat)
    requires keys <= players.Keys && key !in keys
    ensures SumOver(keys, players[key := player], f) == SumOver(keys, players, f)
    decreases |keys|
  {
    if keys != {} { SumIgnores(keys - {Pick(keys)}, players, key, player, f); }
  }

  ghost function Sum(players: map<nat, Player>, f: Player -> nat): nat {
    SumOver(players.Keys, players, f)
  }

  lemma SumUpdate(players: map<nat, Player>, key: nat, player: Player, f: Player -> nat)
    ensures Sum(players[key := player], f)
            == Sum(players, f) + f(player) - if key in players then f(players[key]) else 0
  {
    var next := players[key := player];
    var others := players.Keys - {key};
    assert next.Keys - {key} == others;
    SumTakes(next.Keys, next, f, key);
    SumIgnores(others, players, key, player, f);
    if key in players { SumTakes(players.Keys, players, f, key); } else { assert others == players.Keys; }
  }

  function AllGames(battles: seq<Battle>): nat {
    if battles == [] then 0 else AllGames(battles[..|battles| - 1]) + |battles[|battles| - 1].winners|
  }

  lemma {:induction false} OneWins(winners: seq<Slot>)
    ensures WinsOf(winners, A) + WinsOf(winners, B) == |winners|
  {
    if winners != [] { OneWins(winners[..|winners| - 1]); }
  }

  const GAMES: Player -> nat := (player: Player) => player.games
  const WINS: Player -> nat := (player: Player) => player.wins

  lemma PlayedAdds(g: Glicko, t: Table, battle: Battle, player: nat, slot: Slot, before: Form, rival: Form)
    ensures var t' := Played(g, t, battle, player, slot, before, rival);
            Sum(t'.players, GAMES) == Sum(t.players, GAMES) + |battle.winners| &&
            Sum(t'.players, WINS) == Sum(t.players, WINS) + WinsOf(battle.winners, slot)
  {
    var state := Played(g, t, battle, player, slot, before, rival).players[player];
    SumUpdate(t.players, player, state, GAMES);
    SumUpdate(t.players, player, state, WINS);
  }

  /** Every game that counts is won once and played twice. */
  lemma {:induction false} GamesAreConserved(g: Glicko, battles: seq<Battle>)
    ensures Sum(Replay(g, battles).players, WINS) == AllGames(battles)
    ensures Sum(Replay(g, battles).players, GAMES) == 2 * AllGames(battles)
  {
    hide Grown, Before, Sum, Played;
    if battles == [] {
      NoSum(GAMES);
      NoSum(WINS);
    } else {
      var n := |battles| - 1;
      var battle, t := battles[n], Replay(g, battles[..n]);
      GamesAreConserved(g, battles[..n]);
      var a, b := Before(g, t, battle.a, battle.time), Before(g, t, battle.b, battle.time);
      PlayedAdds(g, t, battle, battle.a, A, a, b);
      PlayedAdds(g, Played(g, t, battle, battle.a, A, a, b), battle, battle.b, B, b, a);
      OneWins(battle.winners);
    }
  }

  lemma NoSum(f: Player -> nat)
    ensures Sum(map[], f) == 0
  {}

  // ---------------------------------------------------------------------------- what a battle says of its games

  /** The end of a battle is the latest end known of its games. */
  lemma {:induction false} LastIsLatest(rows: seq<GameRow>, id: nat)
    ensures LastOf(rows, id).Some? <==> exists i :: 0 <= i < |rows| && rows[i].id == id && rows[i].finishedAt.Some?
    ensures LastOf(rows, id).Some? ==>
              (exists i :: 0 <= i < |rows| && rows[i].id == id && rows[i].finishedAt == LastOf(rows, id)) &&
              forall i :: 0 <= i < |rows| && rows[i].id == id && rows[i].finishedAt.Some? ==>
                rows[i].finishedAt.value <= LastOf(rows, id).value
  {
    if rows != [] {
      var n := |rows| - 1;
      LastIsLatest(rows[..n], id);
      forall i | 0 <= i < n ensures rows[..n][i] == rows[i] {}
      if i :| 0 <= i < |rows[..n]| && rows[..n][i].id == id && rows[..n][i].finishedAt == LastOf(rows[..n], id) {
        assert rows[i].finishedAt == LastOf(rows[..n], id);
      }
    }
  }

  /** The winners of a battle are those of its games, one each and in their order. */
  lemma {:induction false} WinnersAre(rows: seq<GameRow>, id: nat, k: nat)
    requires k < |rows| && rows[k].id == id
    ensures |WinnersOf(rows[..k], id)| == |set i: nat | i < k && rows[i].id == id|
    ensures |WinnersOf(rows[..k], id)| < |WinnersOf(rows, id)|
    ensures WinnersOf(rows, id)[|WinnersOf(rows[..k], id)|] == rows[k].winner
  {
    WinnersCounted(rows, id, k);
    WinnersPrefix(rows, id, k);
  }

  lemma {:induction false} WinnersCounted(rows: seq<GameRow>, id: nat, k: nat)
    requires k <= |rows|
    ensures |WinnersOf(rows[..k], id)| == |set i: nat | i < k && rows[i].id == id|
  {
    var now := set i: nat | i < k && rows[i].id == id;
    if k == 0 {
      assert now == {};
    } else {
      WinnersCounted(rows, id, k - 1);
      assert rows[..k][..k - 1] == rows[..k - 1];
      var before := set i: nat | i < k - 1 && rows[i].id == id;
      assert now == before + if rows[k - 1].id == id then {k - 1} else {};
    }
  }

  lemma {:induction false} WinnersPrefix(rows: seq<GameRow>, id: nat, k: nat)
    requires k < |rows| && rows[k].id == id
    ensures WinnersOf(rows[..k], id) + [rows[k].winner] <= WinnersOf(rows, id)
  {
    var n := |rows| - 1;
    if k < n {
      WinnersPrefix(rows[..n], id, k);
      assert rows[..n][..k] == rows[..k];
    }
  }
}
