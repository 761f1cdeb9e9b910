/** What is stored of the ranking of the duels, brought up to date with its replay (judge/arena/rating.py). */
module DuelTable {
  import opened Common
  import opened DuelRanking

  const TOLERANCE: real := 0.0000001

  /** The fields worked out for a row: its numbers with decimals, and the others. */
  datatype Values = Values(reals: seq<real>, others: seq<int>)

  /** A stored row, where a number with decimals may be missing. */
  datatype Row = Row(reals: seq<Option<real>>, others: seq<int>)

  function RatingValues(player: Player): Values {
    Values([player.form.rating, player.form.deviation, player.form.volatility],
           [player.games, player.wins, player.battles, player.lastPlayed])
  }

  function ChangeValues(change: Change): Values {
    Values([change.ratingBefore, change.form.rating, change.form.deviation, change.form.volatility],
           [change.time, change.games, change.wins, change.gamesTotal])
  }

  function AllRatings(players: map<nat, Player>): map<nat, Values> {
    map p | p in players :: RatingValues(players[p])
  }

  function AllChanges(changes: map<(nat, nat), Change>): map<(nat, nat), Values> {
    map key | key in changes :: ChangeValues(changes[key])
  }

  predicate Close(x: real, y: real) {
    -TOLERANCE <= x - y <= TOLERANCE
  }

  /** _same() */
  predicate Same(row: Row, values: Values) {
    |row.reals| == |values.reals| && row.others == values.others &&
    forall i :: 0 <= i < |row.reals| ==> row.reals[i].Some? && Close(row.reals[i].value, values.reals[i])
  }

  function Written(values: Values): (row: Row)
    ensures Same(row, values)
  {
    Row(seq(|values.reals|, i requires 0 <= i < |values.reals| => Some(values.reals[i])), values.others)
  }

  ghost function ToWrite<K>(rows: map<K, Row>, values: map<K, Values>): set<K> {
    set k | k in values && (k !in rows || !Same(rows[k], values[k]))
  }

  ghost function Gone<K>(rows: map<K, Row>, values: map<K, Values>): set<K> {
    set k | k in rows && k !in values
  }

  /** What is stored afterwards: a row that is the same within the tolerance is left as it was. */
  ghost function Synced<K>(rows: map<K, Row>, values: map<K, Values>): map<K, Row> {
    map k | k in values :: if k in rows && Same(rows[k], values[k]) then rows[k] else Written(values[k])
  }

  ghost function Differences<K>(rows: map<K, Row>, values: map<K, Values>): nat {
    |ToWrite(rows, values)| + |Gone(rows, values)|
  }

  method DifferentKeys<K(==)>(rows: map<K, Row>, values: map<K, Values>) returns (write: set<K>, gone: set<K>)
    ensures write == ToWrite(rows, values) && gone == Gone(rows, values)
  {
    write := set k | k in values && (k !in rows || !Same(rows[k], values[k]));
    gone := set k | k in rows && k !in values;
  }

  /** Delete what is gone, then write what differs, one row at a time. */
  method Sync<K(==)>(rows: map<K, Row>, values: map<K, Values>) returns (rows': map<K, Row>, count: nat)
    ensures rows' == Synced(rows, values) && count == Differences(rows, values)
  {
    var write, gone := DifferentKeys(rows, values);
    count := |write| + |gone|;
    rows' := rows - gone;
    var left := write;
    while left != {}
      invariant left <= write
      invariant rows'.Keys == (rows.Keys - gone) + (write - left)
      invariant forall k :: k in rows' ==> k in values
      invariant forall k :: k in rows' ==> rows'[k] == if k in write - left then Written(values[k]) else rows[k]
      decreases left
    {
      var k :| k in left;
      left := left - {k};
      rows' := rows'[k := Written(values[k])];
    }
    forall k ensures k in rows' <==> k in values {
      assert k in gone <==> k in rows && k !in values;
      assert k in write <==> k in values && (k !in rows || !Same(rows[k], values[k]));
    }
  }

  /** Afterwards nothing differs, whatever was stored before; doing it again writes nothing and changes nothing. */
  lemma SyncedIsClean<K>(rows: map<K, Row>, values: map<K, Values>)
    ensures Differences(Synced(rows, values), values) == 0
    ensures Synced(Synced(rows, values), values) == Synced(rows, values)
    ensures Synced(rows, values).Keys == values.Keys
    ensures forall k :: k in values ==> Same(Synced(rows, values)[k], values[k])
    ensures Differences(rows, values) == 0 <==> Synced(rows, values) == rows
  {
    var synced := Synced(rows, values);
    assert ToWrite(synced, values) == {} && Gone(synced, values) == {};
    if Differences(rows, values) == 0 {
      assert ToWrite(rows, values) == {} && Gone(rows, values) == {};
      assert rows.Keys == values.Keys by {
        forall k ensures k in rows <==> k in values {
          assert k !in ToWrite(rows, values) && k !in Gone(rows, values);
        }
      }
      forall k | k in values ensures synced[k] == rows[k] { assert k !in ToWrite(rows, values); }
    }
  }

  class Ranking {
    var ratings: map<nat, Row>
    var changes: map<(nat, nat), Row>

    /** check() */
    method Check(g: Glicko, games: set<GameRow>) returns (count: nat)
      requires Countable(games)
      ensures forall battles :: BattlesOf(games, battles) ==>
        count == Differences(ratings, AllRatings(Replay(g, battles).players))
                 + Differences(changes, AllChanges(Replay(g, battles).changes))
    {
      hide Replay, Differences;
      var ordered := Battles(games);
      var players, made := Compute(g, ordered);
      var r, goneR := DifferentKeys(ratings, AllRatings(players));
      var c, goneC := DifferentKeys(changes, AllChanges(made));
      count := |r| + |c| + |goneR| + |goneC|;
      DifferencesAre(ratings, AllRatings(players), r, goneR);
      DifferencesAre(changes, AllChanges(made), c, goneC);
      OnlyBattles(games, ordered);
    }

    /** recompute() */
    method Recompute(g: Glicko, games: set<GameRow>) returns (count: nat)
      requires Countable(games)
      modifies this
      ensures forall battles :: BattlesOf(games, battles) ==>
        ratings == Synced(old(ratings), AllRatings(Replay(g, battles).players)) &&
        changes == Synced(old(changes), AllChanges(Replay(g, battles).changes)) &&
        count == Differences(old(ratings), AllRatings(Replay(g, battles).players))
                 + Differences(old(changes), AllChanges(Replay(g, battles).changes))
    {
      hide Replay, Differences, Synced;
      var ordered := Battles(games);
      var players, made := Compute(g, ordered);
      var n, m;
      changes, m := Sync(changes, AllChanges(made));
      ratings, n := Sync(ratings, AllRatings(players));
      count := n + m;
      OnlyBattles(games, ordered);
    }
  }

  lemma DifferencesAre<K>(rows: map<K, Row>, values: map<K, Values>, write: set<K>, gone: set<K>)
    requires write == ToWrite(rows, values) && gone == Gone(rows, values)
    ensures Differences(rows, values) == |write| + |gone|
  {}

  lemma OnlyBattles(games: set<GameRow>, ordered: seq<Battle>)
    requires BattlesOf(games, ordered)
    ensures forall battles :: BattlesOf(games, battles) ==> battles == ordered
  {
    forall battles | BattlesOf(games, battles) ensures battles == ordered {
      SameGamesSameBattles(games, battles, ordered);
    }
  }

  predicate Stored(x: Option<real>, y: real) {
    x.Some? && y - 0.0000001 <= x.value <= y + 0.0000001
  }

  /** A row of the rating table: rating, deviation and volatility; games, wins, battles and the last game. */
  predicate IsRating(row: Row, player: Player) {
    |row.reals| == 3 && Stored(row.reals[0], player.form.rating) && Stored(row.reals[1], player.form.deviation) &&
    Stored(row.reals[2], player.form.volatility) &&
    row.others == [player.games as int, player.wins as int, player.battles as int, player.lastPlayed]
  }

  /** A row of the table of changes: ratings before and after, deviation and volatility; the date and the games. */
  predicate IsChange(row: Row, change: Change) {
    |row.reals| == 4 && Stored(row.reals[0], change.ratingBefore) && Stored(row.reals[1], change.form.rating) &&
    Stored(row.reals[2], change.form.deviation) && Stored(row.reals[3], change.form.volatility) &&
    row.others == [change.time, change.games as int, change.wins as int, change.gamesTotal as int]
  }

  /** After a recompute every column holds its own field of the replay, and there is a row for nothing else. */
  lemma ColumnsAre(g: Glicko, battles: seq<Battle>, stored: map<nat, Row>, storedChanges: map<(nat, nat), Row>)
    ensures var t := Replay(g, battles);
            var ratings, changes := Synced(stored, AllRatings(t.players)), Synced(storedChanges, AllChanges(t.changes));
            ratings.Keys == t.players.Keys && changes.Keys == t.changes.Keys &&
            (forall p :: p in t.players ==> IsRating(ratings[p], t.players[p])) &&
            (forall key :: key in t.changes ==> IsChange(changes[key], t.changes[key]))
  {
    hide Replay, Synced, Same, RatingValues, ChangeValues, IsRating, IsChange, Differences;
    var t := Replay(g, battles);
    SyncedIsClean(stored, AllRatings(t.players));
    SyncedIsClean(storedChanges, AllChanges(t.changes));
    forall p | p in t.players ensures IsRating(Synced(stored, AllRatings(t.players))[p], t.players[p]) {
      RatingRow(Synced(stored, AllRatings(t.players))[p], t.players[p]);
    }
    forall key | key in t.changes ensures IsChange(Synced(storedChanges, AllChanges(t.changes))[key], t.changes[key]) {
      ChangeRow(Synced(storedChanges, AllChanges(t.changes))[key], t.changes[key]);
    }
  }

  lemma RatingRow(row: Row, player: Player)
    requires Same(row, RatingValues(player))
    ensures IsRating(row, player)
  {}

  lemma ChangeRow(row: Row, change: Change)
    requires Same(row, ChangeValues(change))
    ensures IsChange(row, change)
  {}

  /** Whatever was stored, recomputing leaves the replay of the games, up to the tolerance, and nothing to do. */
  lemma RecomputedIsUpToDate(g: Glicko, games: set<GameRow>, battles: seq<Battle>, battles': seq<Battle>,
                             stored: map<nat, Row>, storedChanges: map<(nat, nat), Row>)
    requires BattlesOf(games, battles) && BattlesOf(games, battles')
    ensures var t, t' := Replay(g, battles), Replay(g, battles');
            var ratings, changes := Synced(stored, AllRatings(t.players)), Synced(storedChanges, AllChanges(t.changes));
            t == t' &&
            Differences(ratings, AllRatings(t'.players)) + Differences(changes, AllChanges(t'.changes)) == 0 &&
            Synced(ratings, AllRatings(t'.players)) == ratings && Synced(changes, AllChanges(t'.changes)) == changes &&
            (forall p :: p in t.players ==> p in ratings && Same(ratings[p], RatingValues(t.players[p]))) &&
            ratings.Keys == t.players.Keys && changes.Keys == t.changes.Keys &&
            (forall key :: key in t.changes ==> key in changes && Same(changes[key], ChangeValues(t.changes[key])))
  {
    SameGamesSameBattles(games, battles, battles');
    var t := Replay(g, battles);
    SyncedIsClean(stored, AllRatings(t.players));
    SyncedIsClean(storedChanges, AllChanges(t.changes));
    hide Replay, Same, Differences, RatingValues, ChangeValues;
  }
}
