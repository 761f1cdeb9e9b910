/** The final table of a tournament and its podium (judge/arena/history.py). */
module BracketStandings {
  import opened Common
  import opened Seeding
  import opened Bracket
  import opened BracketRuns
  import opened BracketFates
  import opened BracketLength
  import opened BracketPlaces

  // -------------------------------------------------------------------------------------- reading the matches

  /** What a decided match is worth to a side, in quarters of a round: only a lost match or the last ones count. */
  function Worth(b: Bracket, at: Place, s: Slot): nat
    requires at in b.rows && b.rounds >= 1
  {
    var row := b.rows[at];
    var won := row.winner == Some(s);
    if !row.status.DECIDED? || row.winner.None? then 0
    else if at.Third? then if won then 4 * b.rounds - 2 else 4 * b.rounds - 3
    else if row.next.None? then if won then 4 * b.rounds + 4 else 4 * b.rounds
    else if won then 0
    else 4 * at.round
  }

  function Raise(b: Bracket, at: Place, s: Slot, depth: map<Player, nat>): map<Player, nat>
    requires at in b.rows && b.rounds >= 1
  {
    var e := b.rows[at].Of(s);
    if e.Some? && e.value.player in depth && Worth(b, at, s) > depth[e.value.player] then
      depth[e.value.player := Worth(b, at, s)]
    else depth
  }

  /** The winner of the match for third place. */
  ghost predicate WonThird(b: Bracket, seed: nat)
    requires Known(b, seed)
  {
    b.third && b.rows[Third].Winner() == Some(EntryOf(b, seed))
  }

  /** Lost a semifinal of a bracket that plays for third place. */
  ghost predicate PlayedThird(b: Bracket, seed: nat)
    requires Known(b, seed)
  {
    b.third && FateOf(b, seed) == Out(b.rounds - 1)
  }

  ghost function DepthOf(b: Bracket, seed: nat): int
    requires Known(b, seed)
  {
    match FateOf(b, seed)
    case Champion => 4 * b.rounds + 4
    case Alive(_) => 0
    case Out(r) =>
      if PlayedThird(b, seed) then if WonThird(b, seed) then 4 * b.rounds - 2 else 4 * b.rounds - 3 else 4 * r
  }

  /** The place a fate earns. */
  ghost function PlaceOf(b: Bracket, seed: nat): nat
    requires Known(b, seed)
  {
    match FateOf(b, seed)
    case Champion => 1
    case Alive(_) => 0
    case Out(r) =>
      if r >= b.rounds then 2
      else if PlayedThird(b, seed) then if WonThird(b, seed) then 3 else 4
      else Pow2(b.rounds - r) + 1
  }

  /** The players of the match for third place are the losers of the semifinals. */
  lemma ThirdIs(b: Bracket, seed: nat, s: Slot)
    requires Known(b, seed) && b.third && b.rounds >= 2
    ensures Third in b.rows
    ensures InSlot(b, seed, Third, s) <==> Lost(b, seed, b.rounds - 1) && Line(b, seed, b.rounds - 1) / 2 == Offset(s)
  {
    hide RowOk, ShapeOk, LinksOk, SeatOf, BlockOf, Order;
    FinalIsPlace(b);
    RowParts(b, Third, s);
    var f := Main(b.rounds - 1, Offset(s));
    if InSlot(b, seed, Third, s) {
      OnlyInLine(b, seed, b.rounds - 1, Offset(s), b.rows[f].winner.value.Other());
    }
  }

  lemma ThirdBoth(b: Bracket, seed: nat)
    requires Known(b, seed) && Ended(b) && PlayedThird(b, seed)
    ensures b.rounds >= 2 && Third in b.rows && b.rows[Third].Both() && b.rows[Third].winner.Some?
    ensures var s := if Line(b, seed, b.rounds - 1) < 2 then A else B;
            InSlot(b, seed, Third, s) && (WonThird(b, seed) <==> b.rows[Third].winner == Some(s))
  {
    hide RowOk, LinksOk, SeatOf, BlockOf, Order;
    SizedRounds(b);
    FinalIsPlace(b);
    OneFate(b, seed);
    assert Lost(b, seed, b.rounds - 1);
    LineInside(b, seed, b.rounds - 1);
    assert Pow2(1) == 2;
    var s := if Line(b, seed, b.rounds - 1) < 2 then A else B;
    ThirdIs(b, seed, s);
    RowParts(b, Third, s);
    RivalsDiffer(b, Third);
  }

  lemma WorthBounded(b: Bracket, seed: nat, at: Place, s: Slot)
    requires Known(b, seed) && Ended(b) && InSlot(b, seed, at, s)
    ensures Worth(b, at, s) <= DepthOf(b, seed)
  {
    hide RowOk, SeatOf, BlockOf, Order, Pow2;
    SizedRounds(b);
    OneFate(b, seed);
    NobodyAlive(b, seed);
    RowParts(b, at, s);
    match at {
      case Main(r, p) =>
        OnlyInLine(b, seed, r, p, s);
        assert Lost(b, seed, r) <==> b.rows[at].winner == Some(s.Other());
        assert Won(b, seed, r) <==> b.rows[at].winner == Some(s);
        DecidedFromTheTop(b, r, p);
      case Third =>
        ThirdIs(b, seed, s);
        assert Lost(b, seed, b.rounds - 1);
        ThirdBoth(b, seed);
        RivalsDiffer(b, Third);
    }
  }

  lemma WorthReached(b: Bracket, seed: nat) returns (at: Place, s: Slot)
    requires Known(b, seed) && Ended(b)
    ensures InSlot(b, seed, at, s) && Worth(b, at, s) == DepthOf(b, seed)
  {
    hide RowOk, SeatOf, BlockOf, Order, Pow2;
    SizedRounds(b);
    OneFate(b, seed);
    NobodyAlive(b, seed);
    var fate := FateOf(b, seed);
    if PlayedThird(b, seed) {
      ThirdBoth(b, seed);
      at, s := Third, if Line(b, seed, b.rounds - 1) < 2 then A else B;
      RivalsDiffer(b, Third);
    } else {
      var r := LastRound(fate, b.rounds);
      assert Plays(b, seed, r) && (fate.Out? ==> Lost(b, seed, r));
      at, s := Main(r, Line(b, seed, r) / 2), SlotOf(Line(b, seed, r));
      RowParts(b, at, s);
    }
  }

  // ------------------------------------------------------------------------------------------------ the places

  /** Who got further than some depth. */
  ghost function Deeper(b: Bracket, depth: int): set<nat>
    requires Consistent(b)
  {
    set seed | 1 <= seed <= |b.players| && DepthOf(b, seed) > depth
  }

  lemma DeeperThanRound(b: Bracket, seed: nat, r: nat)
    requires Known(b, seed) && Ended(b) && 1 <= r < b.rounds && (b.third ==> r < b.rounds - 1)
    ensures DepthOf(b, seed) > 4 * r <==> Plays(b, seed, r + 1)
  {
    OneFate(b, seed);
    NobodyAlive(b, seed);
  }

  lemma DeeperThanThird(b: Bracket, seed: nat)
    requires Known(b, seed) && Ended(b) && b.third
    ensures DepthOf(b, seed) > 4 * b.rounds - 2 <==> Plays(b, seed, b.rounds)
    ensures DepthOf(b, seed) > 4 * b.rounds - 3 <==>
            Plays(b, seed, b.rounds) || (PlayedThird(b, seed) && WonThird(b, seed))
  {
    OneFate(b, seed);
    NobodyAlive(b, seed);
    SizedRounds(b);
  }

  lemma ThirdWinner(b: Bracket) returns (seed: nat)
    requires Consistent(b) && Ended(b) && b.third && b.rounds >= 2
    ensures 1 <= seed <= |b.players| && PlayedThird(b, seed) && WonThird(b, seed)
    ensures forall x :: 1 <= x <= |b.players| && WonThird(b, x) ==> x == seed
  {
    hide RowOk, LinksOk, SeatOf, BlockOf, Order, SlotOk;
    FinalIsPlace(b);
    RowParts(b, Third, A);
    var s := b.rows[Third].winner.value;
    OriginOfThird(b, s);
    seed := b.rows[Third].Of(s).value.seed;
    ThirdIs(b, seed, s);
    OneFate(b, seed);
  }

  lemma BeyondThird(b: Bracket)
    requires Consistent(b) && Ended(b) && b.third && b.rounds >= 2
    ensures |Deeper(b, 4 * b.rounds - 2)| == 2 && |Deeper(b, 4 * b.rounds - 3)| == 3
  {
    ReachedCount(b, b.rounds);
    assert Pow2(0) == 1;
    var winner := ThirdWinner(b);
    forall seed | 1 <= seed <= |b.players|
      ensures seed in Deeper(b, 4 * b.rounds - 2) <==> seed in Reached(b, b.rounds)
      ensures seed in Deeper(b, 4 * b.rounds - 3) <==> seed in Reached(b, b.rounds) || seed == winner
    {
      DeeperThanThird(b, seed);
    }
    OneFate(b, winner);
    hide Consistent, Ended, PlayedThird, WonThird, DepthOf;
    assert Deeper(b, 4 * b.rounds - 2) == Reached(b, b.rounds);
    assert Deeper(b, 4 * b.rounds - 3) == Reached(b, b.rounds) + {winner};
    assert winner !in Reached(b, b.rounds);
  }

  lemma BeyondRound(b: Bracket, r: nat)
    requires Consistent(b) && Ended(b) && 1 <= r < b.rounds && (b.third ==> r < b.rounds - 1)
    ensures |Deeper(b, 4 * r)| == Pow2(b.rounds - r)
  {
    ReachedCount(b, r + 1);
    forall seed | 1 <= seed <= |b.players| ensures seed in Deeper(b, 4 * r) <==> seed in Reached(b, r + 1) {
      DeeperThanRound(b, seed, r);
    }
    assert Deeper(b, 4 * r) == Reached(b, r + 1);
    assert Pow2(b.rounds - r) == 2 * Pow2(b.rounds - (r + 1));
  }

  lemma BeyondFinal(b: Bracket)
    requires Consistent(b) && Ended(b)
    ensures |Deeper(b, 4 * b.rounds)| == 1 && Deeper(b, 4 * b.rounds + 4) == {}
  {
    OneChampion(b);
    forall seed | 1 <= seed <= |b.players|
      ensures seed in Deeper(b, 4 * b.rounds) <==> seed in Champions(b)
      ensures DepthOf(b, seed) <= 4 * b.rounds + 4
    {
      OneFate(b, seed);
    }
    assert Deeper(b, 4 * b.rounds) == Champions(b);
  }

  lemma LastRoundInside(b: Bracket, seed: nat)
    requires Known(b, seed)
    ensures 1 <= LastRound(FateOf(b, seed), b.rounds) <= b.rounds && (b.third ==> b.rounds >= 2)
  {
    OneFate(b, seed);
    SizedRounds(b);
  }

  /**
   In a finished tournament of R rounds the champion is 1st, the runner-up 2nd and whoever lost in round k is in place
   2^(R-k) + 1, the players of a match for third place being 3rd and 4th: one more than how many got further.
   */
  lemma PlacesFollow(b: Bracket, seed: nat)
    requires Known(b, seed) && Ended(b)
    ensures PlaceOf(b, seed) == 1 + |Deeper(b, DepthOf(b, seed))|
  {
    hide RowOk, Deeper, Plays, Pow2, Sized, Consistent, Ended;
    LastRoundInside(b, seed);
    NobodyAlive(b, seed);
    BeyondFinal(b);
    if PlayedThird(b, seed) {
      BeyondThird(b);
    } else if FateOf(b, seed).Out? && FateOf(b, seed).round < b.rounds {
      BeyondRound(b, FateOf(b, seed).round);
    }
  }

  method Standings(b: Bracket, matches: seq<Place>) returns (place: map<Player, nat>)
    requires Good(b) && b.stage.FINISHED? && forall at :: at in matches <==> at in b.rows
    ensures forall player :: player in b.players ==> player in place
    ensures forall k :: 0 <= k < |b.players| ==> place[b.players[k]] == PlaceOf(b, k + 1)
  {
    var depth: map<Player, nat> := map player | player in b.players :: 0;
    for i := 0 to |matches|
      invariant DepthsSoFar(b, matches[..i], depth)
    {
      DepthsGrow(b, matches[..i], matches[i], depth);
      assert matches[..i + 1] == matches[..i] + [matches[i]];
      depth := Raise(b, matches[i], A, depth);
      depth := Raise(b, matches[i], B, depth);
    }
    assert matches[..|matches|] == matches;
    DepthsAre(b, matches, depth);
    place := Places(b, depth);
  }

  method Places(b: Bracket, depth: map<Player, nat>) returns (place: map<Player, nat>)
    requires Consistent(b) && Ended(b) && forall player :: player in b.players ==> player in depth
    requires forall seed :: 1 <= seed <= |b.players| ==> depth[b.players[seed - 1]] == DepthOf(b, seed)
    ensures forall player :: player in b.players ==> player in place
    ensures forall k :: 0 <= k < |b.players| ==> place[b.players[k]] == PlaceOf(b, k + 1)
  {
    hide DepthOf, PlaceOf, RowOk, Pow2;
    place := map[];
    for i := 0 to |b.players|
      invariant forall player :: player in b.players[..i] ==> player in place
      invariant forall k :: 0 <= k < i ==> place[b.players[k]] == PlaceOf(b, k + 1)
    {
      var deeper := CountDeeper(b, depth, depth[b.players[i]]);
      PlacesFollow(b, i + 1);
      place := place[b.players[i] := 1 + deeper];
    }
  }

  /** Nothing is above the depth a fate earns, and every match read so far has been counted. */
  ghost predicate DepthsSoFar(b: Bracket, matches: seq<Place>, depth: map<Player, nat>)
    requires Consistent(b)
  {
    (forall player :: player in depth <==> player in b.players) &&
    (forall seed :: 1 <= seed <= |b.players| ==> depth[b.players[seed - 1]] <= DepthOf(b, seed)) &&
    (forall at, s :: at in matches ==> Counted(b, depth, at, s))
  }

  ghost predicate Counted(b: Bracket, depth: map<Player, nat>, at: Place, s: Slot)
    requires Consistent(b) && forall player :: player in depth <==> player in b.players
  {
    forall seed: nat :: InSlot(b, seed, at, s) ==> Worth(b, at, s) <= depth[b.players[seed - 1]]
  }

  lemma DepthsGrow(b: Bracket, matches: seq<Place>, at: Place, depth: map<Player, nat>)
    requires Consistent(b) && Ended(b) && at in b.rows && DepthsSoFar(b, matches, depth)
    ensures DepthsSoFar(b, matches + [at], Raise(b, at, B, Raise(b, at, A, depth)))
  {
    hide DepthOf, Worth, RowOk, Raise, Pow2, Sized, InSlot;
    RaiseBounded(b, at, A, depth);
    var first := Raise(b, at, A, depth);
    RaiseBounded(b, at, B, first);
    var next := Raise(b, at, B, first);
    forall q, s | q in matches + [at] ensures Counted(b, next, q, s) {
      if q == at && s == A { CountedStays(b, first, next, q, s); }
      else if q != at || s == A { CountedStays(b, depth, next, q, s); }
    }
  }

  lemma CountedStays(b: Bracket, depth: map<Player, nat>, next: map<Player, nat>, at: Place, s: Slot)
    requires Consistent(b) && forall player :: player in depth <==> player in b.players
    requires forall player :: player in next <==> player in b.players
    requires forall player :: player in b.players ==> depth[player] <= next[player]
    requires Counted(b, depth, at, s)
    ensures Counted(b, next, at, s)
  {
    hide DepthOf, Worth, RowOk, Pow2, Sized;
  }

  lemma RaiseBounded(b: Bracket, at: Place, s: Slot, depth: map<Player, nat>)
    requires Consistent(b) && Ended(b) && at in b.rows
    requires forall player :: player in depth <==> player in b.players
    requires forall seed :: 1 <= seed <= |b.players| ==> depth[b.players[seed - 1]] <= DepthOf(b, seed)
    ensures var next := Raise(b, at, s, depth);
            (forall player :: player in next <==> player in b.players) &&
            (forall player :: player in b.players ==> depth[player] <= next[player]) &&
            (forall seed :: 1 <= seed <= |b.players| ==> next[b.players[seed - 1]] <= DepthOf(b, seed)) &&
            Counted(b, next, at, s)
  {
    var next := Raise(b, at, s, depth);
    var e := b.rows[at].Of(s);
    if e.Some? {
      SlotIsSeed(b, at, s);
      WorthBounded(b, e.value.seed, at, s);
    }
    hide DepthOf, Worth, RowOk;
  }

  lemma SlotIsSeed(b: Bracket, at: Place, s: Slot)
    requires Consistent(b) && at in b.rows && b.rows[at].Of(s).Some?
    ensures InSlot(b, b.rows[at].Of(s).value.seed, at, s)
  {
    assert IsPlace(b, at);
    match at
    case Main(r, p) => Origin(b, r, p, s);
    case Third => OriginOfThird(b, s);
  }

  lemma DepthsAre(b: Bracket, matches: seq<Place>, depth: map<Player, nat>)
    requires Good(b) && b.stage.FINISHED? && DepthsSoFar(b, matches, depth)
    requires forall at :: at in b.rows ==> at in matches
    ensures forall seed :: 1 <= seed <= |b.players| ==> depth[b.players[seed - 1]] == DepthOf(b, seed)
  {
    forall seed | 1 <= seed <= |b.players| ensures depth[b.players[seed - 1]] == DepthOf(b, seed) {
      var at, s := WorthReached(b, seed);
      assert Counted(b, depth, at, s);
    }
  }

  method CountDeeper(b: Bracket, depth: map<Player, nat>, than: nat) returns (count: nat)
    requires Consistent(b) && forall player :: player in b.players ==> player in depth
    requires forall seed :: 1 <= seed <= |b.players| ==> depth[b.players[seed - 1]] == DepthOf(b, seed)
    ensures count == |Deeper(b, than)|
  {
    hide DepthOf, Consistent;
    count := 0;
    ghost var seen: set<nat> := {};
    for seed := 1 to |b.players| + 1
      invariant seen == set x | x in Deeper(b, than) && x < seed
      invariant count == |seen|
    {
      if depth[b.players[seed - 1]] > than {
        count, seen := count + 1, seen + {seed};
      }
    }
    assert seen == Deeper(b, than);
  }

  // ------------------------------------------------------------------------------------------------ the podium

  datatype Podium = Podium(first: Option<Entry>, second: Option<Entry>, third: seq<Option<Entry>>,
                           fourth: Option<Entry>)

  function SemifinalLosers(b: Bracket, pos: nat): seq<Option<Entry>>
    requires b.rounds >= 2 && Main(b.rounds - 1, pos) in b.rows
  {
    var row := b.rows[Main(b.rounds - 1, pos)];
    if row.winner.Some? && !row.reason.Bye? && row.Loser().Some? then [row.Loser()] else []
  }

  function PodiumOf(b: Bracket): Podium
    requires b.rounds >= 1 && Main(b.rounds, 0) in b.rows
    requires b.rounds >= 2 ==> Main(b.rounds - 1, 0) in b.rows && Main(b.rounds - 1, 1) in b.rows
  {
    var final := b.rows[Main(b.rounds, 0)];
    if Third in b.rows && b.rows[Third].winner.Some? then
      Podium(final.Winner(), final.Loser(), [b.rows[Third].Winner()], b.rows[Third].Loser())
    else
      Podium(final.Winner(), final.Loser(),
             if b.rounds >= 2 then SemifinalLosers(b, 0) + SemifinalLosers(b, 1) else [], None)
  }

  lemma SemifinalsAreIn(b: Bracket)
    requires Consistent(b)
    ensures Main(b.rounds, 0) in b.rows
    ensures b.rounds >= 2 ==> Main(b.rounds - 1, 0) in b.rows && Main(b.rounds - 1, 1) in b.rows
  {
    FinalIsPlace(b);
    assert Pow2(1) == 2;
    if b.rounds >= 2 { assert IsPlace(b, Main(b.rounds - 1, 0)) && IsPlace(b, Main(b.rounds - 1, 1)); }
  }

  lemma SemifinalLoserIs(b: Bracket, seed: nat)
    requires Known(b, seed) && b.rounds >= 2
    ensures Main(b.rounds - 1, 0) in b.rows && Main(b.rounds - 1, 1) in b.rows
    ensures Some(EntryOf(b, seed)) in SemifinalLosers(b, 0) + SemifinalLosers(b, 1) <==> Lost(b, seed, b.rounds - 1)
  {
    hide RowOk, SlotOk, LinksOk, SeatOf, BlockOf, Order;
    SemifinalsAreIn(b);
    LineInside(b, seed, b.rounds - 1);
    assert Pow2(1) == 2;
    RowParts(b, Main(b.rounds - 1, 0), A);
    RowParts(b, Main(b.rounds - 1, 1), A);
    forall pos | 0 <= pos < 2
      ensures Some(EntryOf(b, seed)) in SemifinalLosers(b, pos) <==>
              Lost(b, seed, b.rounds - 1) && Line(b, seed, b.rounds - 1) / 2 == pos
    {
      var row := b.rows[Main(b.rounds - 1, pos)];
      if Some(EntryOf(b, seed)) in SemifinalLosers(b, pos) {
        OnlyInLine(b, seed, b.rounds - 1, pos, row.winner.value.Other());
      }
    }
  }

  lemma FinalIs(b: Bracket, seed: nat)
    requires Known(b, seed) && Ended(b)
    ensures b.rows[Main(b.rounds, 0)].Winner() == Some(EntryOf(b, seed)) <==> Won(b, seed, b.rounds)
    ensures b.rows[Main(b.rounds, 0)].Loser() == Some(EntryOf(b, seed)) <==> Lost(b, seed, b.rounds)
  {
    hide RowOk, SlotOk, LinksOk, SeatOf, BlockOf, Order;
    FinalIsPlace(b);
    var row := b.rows[Main(b.rounds, 0)];
    RowParts(b, Main(b.rounds, 0), A);
    LineInside(b, seed, b.rounds);
    assert Pow2(0) == 1;
    if row.Winner() == Some(EntryOf(b, seed)) { OnlyInLine(b, seed, b.rounds, 0, row.winner.value); }
    if row.Loser() == Some(EntryOf(b, seed)) { OnlyInLine(b, seed, b.rounds, 0, row.winner.value.Other()); }
  }

  lemma PowersAre(k: nat)
    ensures Pow2(k) != 3 && (Pow2(k) == 2 <==> k == 1) && (Pow2(k) == 1 <==> k == 0)
  {
    if k >= 2 { assert Pow2(k) == 2 * (2 * Pow2(k - 2)); }
  }

  /** The podium names exactly the participants in places 1 to 4, a shared third place included. */
  lemma PodiumAgrees(b: Bracket, seed: nat)
    requires Known(b, seed) && Ended(b)
    ensures Main(b.rounds, 0) in b.rows
    ensures b.rounds >= 2 ==> Main(b.rounds - 1, 0) in b.rows && Main(b.rounds - 1, 1) in b.rows
    ensures var podium := PodiumOf(b);
            (podium.first == Some(EntryOf(b, seed)) <==> PlaceOf(b, seed) == 1) &&
            (podium.second == Some(EntryOf(b, seed)) <==> PlaceOf(b, seed) == 2) &&
            (Some(EntryOf(b, seed)) in podium.third <==> PlaceOf(b, seed) == 3) &&
            (podium.fourth == Some(EntryOf(b, seed)) <==> PlaceOf(b, seed) == 4)
  {
    hide RowOk, SlotOk, LinksOk, SeatOf, BlockOf, Order, Pow2;
    SizedRounds(b);
    SemifinalsAreIn(b);
    FinalIs(b, seed);
    OneFate(b, seed);
    NobodyAlive(b, seed);
    FinalIsPlace(b);
    assert Won(b, seed, b.rounds) <==> FateOf(b, seed).Champion?;
    assert Lost(b, seed, b.rounds) <==> FateOf(b, seed) == Out(b.rounds);
    var fate := FateOf(b, seed);
    if fate.Out? && fate.round < b.rounds { PowersAre(b.rounds - fate.round); }
    if b.third {
      ThirdIs(b, seed, A);
      ThirdIs(b, seed, B);
      RowParts(b, Third, A);
      RivalsDiffer(b, Third);
      assert Lost(b, seed, b.rounds - 1) <==> fate == Out(b.rounds - 1);
      if PlayedThird(b, seed) { ThirdBoth(b, seed); }
    } else if b.rounds >= 2 {
      SemifinalLoserIs(b, seed);
      assert Lost(b, seed, b.rounds - 1) <==> fate == Out(b.rounds - 1);
    }
  }
}
