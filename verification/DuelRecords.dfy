/** What a stored change of the duel ranking was worked out from: the games, the rival, and the player as they were. */
module DuelRecords {
  import opened Common
  import opened Deviation
  import opened DuelRanking

  function PlayerOf(battle: Battle, slot: Slot): nat {
    if slot.A? then battle.a else battle.b
  }

  predicate Plays(battle: Battle, player: nat) {
    player == battle.a || player == battle.b
  }

  lemma ReplayStep(g: Glicko, battles: seq<Battle>, n: nat)
    requires n < |battles|
    ensures Replay(g, battles[..n + 1]) == After(g, Replay(g, battles[..n]), battles[n])
  {
    assert battles[..n + 1][..n] == battles[..n];
  }

  // ---------------------------------------------------------------------------------- a change stays as it was

  lemma OnlyItsKeys(g: Glicko, t: Table, battle: Battle, key: (nat, nat))
    requires key.0 != battle.id
    ensures key in After(g, t, battle).changes <==> key in t.changes
    ensures key in t.changes ==> After(g, t, battle).changes[key] == t.changes[key]
  {
    hide Before, ResultsOf, WinsOf;
  }

  lemma {:induction false} ChangesStay(g: Glicko, battles: seq<Battle>, k: nat, n: nat, player: nat)
    requires Replayable(battles) && k < n <= |battles| && Plays(battles[k], player)
    ensures var key := (battles[k].id, player);
            key in Replay(g, battles[..k + 1]).changes && key in Replay(g, battles[..n]).changes &&
            Replay(g, battles[..n]).changes[key] == Replay(g, battles[..k + 1]).changes[key]
  {
    hide Replay, After, Replayable;
    var key := (battles[k].id, player);
    if n == k + 1 {
      ReplayStep(g, battles, k);
      OwnKeys(g, Replay(g, battles[..k]), battles[k], player);
    } else {
      ChangesStay(g, battles, k, n - 1, player);
      ReplayStep(g, battles, n - 1);
      DifferentIds(battles, k, n - 1);
      OnlyItsKeys(g, Replay(g, battles[..n - 1]), battles[n - 1], key);
    }
  }

  lemma DifferentIds(battles: seq<Battle>, i: nat, j: nat)
    requires Replayable(battles) && i < j < |battles|
    ensures battles[i].id != battles[j].id && battles[i].time <= battles[j].time
  {
    assert Earlier(battles[i], battles[j]);
  }

  lemma OwnKeys(g: Glicko, t: Table, battle: Battle, player: nat)
    requires Plays(battle, player)
    ensures (battle.id, player) in After(g, t, battle).changes
  {
    hide Before, ResultsOf, WinsOf;
  }

  // ----------------------------------------------------------------------------------- what a change is made of

  /** Game by game: won or lost by `slot`, against the rival as they were before the battle. */
  predicate AreResults(rs: seq<Result>, battle: Battle, slot: Slot, rival: Form) {
    |rs| == |battle.winners| &&
    forall i :: 0 <= i < |rs| ==>
      (rs[i].won <==> battle.winners[i] == slot) && rs[i].rating == rival.rating && rs[i].deviation == rival.deviation
  }

  ghost function WonBy(battle: Battle, slot: Slot): set<nat> {
    set i: nat | i < |battle.winners| && battle.winners[i] == slot
  }

  lemma {:induction false} WinsAreCounted(winners: seq<Slot>, slot: Slot)
    ensures WinsOf(winners, slot) == |set i: nat | i < |winners| && winners[i] == slot|
  {
    var won := set i: nat | i < |winners| && winners[i] == slot;
    if winners == [] {
      assert won == {};
    } else {
      var n := |winners| - 1;
      WinsAreCounted(winners[..n], slot);
      var before := set i: nat | i < |winners[..n]| && winners[..n][i] == slot;
      if winners[n] == slot { assert won == before + {n}; } else { assert won == before; }
    }
  }

  ghost predicate ChangeIs(g: Glicko, change: Change, battle: Battle, slot: Slot, before: Form, rival: Form) {
    (exists rs :: AreResults(rs, battle, slot, rival) && change.form == g.rate(before, rs)) &&
    change.time == battle.time && change.ratingBefore == before.rating &&
    change.games == |battle.winners| && change.wins == |WonBy(battle, slot)|
  }

  lemma SideIs(g: Glicko, t: Table, battle: Battle, slot: Slot)
    requires battle.a != battle.b
    ensures var player, rival := PlayerOf(battle, slot), PlayerOf(battle, slot.Other());
            (battle.id, player) in After(g, t, battle).changes && player in After(g, t, battle).players &&
            ChangeIs(g, After(g, t, battle).changes[(battle.id, player)], battle, slot,
                     Before(g, t, player, battle.time), Before(g, t, rival, battle.time)) &&
            After(g, t, battle).players[player].form == After(g, t, battle).changes[(battle.id, player)].form &&
            After(g, t, battle).players[player].lastPlayed == battle.time &&
            After(g, t, battle).players[player].games == After(g, t, battle).changes[(battle.id, player)].gamesTotal
  {
    hide Before, WinsOf;
    WinsAreCounted(battle.winners, slot);
    var rival := Before(g, t, PlayerOf(battle, slot.Other()), battle.time);
    assert AreResults(ResultsOf(battle.winners, slot, rival), battle, slot, rival);
  }

  /**
   The change of a player in a battle: their form before it, rated with one result a game, a win exactly where that
   player won, against the rival as they were before it; and how many games, wins and games in all.
   */
  lemma ChangeMeans(g: Glicko, battles: seq<Battle>, k: nat, slot: Slot)
    requires Replayable(battles) && k < |battles|
    ensures var battle, t, after := battles[k], Replay(g, battles[..k]), Replay(g, battles);
            var player, rival := PlayerOf(battle, slot), PlayerOf(battle, slot.Other());
            (battle.id, player) in after.changes && player in Replay(g, battles[..k + 1]).players &&
            ChangeIs(g, after.changes[(battle.id, player)], battle, slot,
                     Before(g, t, player, battle.time), Before(g, t, rival, battle.time)) &&
            after.changes[(battle.id, player)].gamesTotal == Replay(g, battles[..k + 1]).players[player].games
  {
    hide Replay, After, Before, ChangeIs;
    ReplayStep(g, battles, k);
    SideIs(g, Replay(g, battles[..k]), battles[k], slot);
    ChangesStay(g, battles, k, |battles|, PlayerOf(battles[k], slot));
    assert battles[..|battles|] == battles;
  }

  // --------------------------------------------------------------------------------- a player before a battle

  lemma Untouched(g: Glicko, t: Table, battle: Battle, player: nat)
    requires !Plays(battle, player)
    ensures player in After(g, t, battle).players <==> player in t.players
    ensures player in t.players ==> After(g, t, battle).players[player] == t.players[player]
  {
    hide Before, ResultsOf, WinsOf;
  }

  lemma {:induction false} NotYet(g: Glicko, battles: seq<Battle>, n: nat, player: nat)
    requires n <= |battles| && forall j :: 0 <= j < n ==> !Plays(battles[j], player)
    ensures player !in Replay(g, battles[..n]).players
  {
    hide After;
    if n > 0 {
      NotYet(g, battles, n - 1, player);
      ReplayStep(g, battles, n - 1);
      Untouched(g, Replay(g, battles[..n - 1]), battles[n - 1], player);
    }
  }

  /** A player is as their last battle so far left them. */
  lemma {:induction false} AsLeft(g: Glicko, battles: seq<Battle>, j: nat, n: nat, player: nat)
    requires Replayable(battles) && j < n <= |battles| && Plays(battles[j], player)
    requires forall l :: j < l < n ==> !Plays(battles[l], player)
    ensures var key, t := (battles[j].id, player), Replay(g, battles[..n]);
            player in t.players && key in Replay(g, battles).changes &&
            t.players[player].form == Replay(g, battles).changes[key].form &&
            t.players[player].lastPlayed == battles[j].time
  {
    hide Replay, After, ChangeIs;
    if n == j + 1 {
      ReplayStep(g, battles, j);
      SideIs(g, Replay(g, battles[..j]), battles[j], if player == battles[j].a then A else B);
      ChangesStay(g, battles, j, |battles|, player);
      assert battles[..|battles|] == battles;
    } else {
      AsLeft(g, battles, j, n - 1, player);
      ReplayStep(g, battles, n - 1);
      Untouched(g, Replay(g, battles[..n - 1]), battles[n - 1], player);
    }
  }

  /** Before their first battle a player is a newcomer. */
  lemma NewcomerBefore(g: Glicko, battles: seq<Battle>, k: nat, player: nat)
    requires k < |battles| && forall j :: 0 <= j < k ==> !Plays(battles[j], player)
    ensures Before(g, Replay(g, battles[..k]), player, battles[k].time) == Form(1500.0, 350.0, 0.06)
  {
    NotYet(g, battles, k, player);
  }

  /** Otherwise as their last battle left them, the deviation grown by the whole weeks since then. */
  lemma BeforeIsLast(g: Glicko, battles: seq<Battle>, k: nat, j: nat, player: nat)
    requires Replayable(battles) && j < k < |battles| && Plays(battles[j], player)
    requires forall l :: j < l < k ==> !Plays(battles[l], player)
    ensures (battles[j].id, player) in Replay(g, battles).changes
    ensures var last := Replay(g, battles).changes[(battles[j].id, player)].form;
            var weeks := (battles[k].time - battles[j].time) / 604_800_000_000;
            weeks >= 0 && Before(g, Replay(g, battles[..k]), player, battles[k].time)
                          == Form(last.rating, Grown(g.root, last.deviation, last.volatility, weeks), last.volatility)
  {
    hide Replay, Grown;
    AsLeft(g, battles, j, k, player);
    DifferentIds(battles, j, k);
  }

  /** The rating that is stored is the one after the player's last battle. */
  lemma StoredIsLast(g: Glicko, battles: seq<Battle>, j: nat, player: nat)
    requires Replayable(battles) && j < |battles| && Plays(battles[j], player)
    requires forall l :: j < l < |battles| ==> !Plays(battles[l], player)
    ensures var t := Replay(g, battles);
            player in t.players && (battles[j].id, player) in t.changes &&
            t.players[player].form == t.changes[(battles[j].id, player)].form &&
            t.players[player].lastPlayed == battles[j].time
  {
    hide Replay;
    AsLeft(g, battles, j, |battles|, player);
    assert battles[..|battles|] == battles;
  }
}
