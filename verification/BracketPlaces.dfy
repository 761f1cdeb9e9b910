/** What becomes of every participant, and their final places (judge/arena/history.py). */
module BracketPlaces {
  import opened Common
  import opened Seeding
  import opened Bracket
  import opened BracketRuns
  import opened BracketFates
  import opened BracketLength

  function EntryOf(b: Bracket, seed: nat): Entry
    requires 1 <= seed <= |b.players|
  {
    Entry(b.players[seed - 1], seed)
  }

  /** The slot, counted over the whole round, where a seed would be in round r. */
  function Line(b: Bracket, seed: nat, r: nat): nat
    requires 1 <= seed <= Pow2(b.rounds) && r >= 1
  {
    BlockOf(SeatOf(b.rounds, seed), r - 1)
  }

  ghost predicate InSlot(b: Bracket, seed: nat, at: Place, s: Slot) {
    1 <= seed <= |b.players| && at in b.rows && b.rows[at].Of(s) == Some(EntryOf(b, seed))
  }

  ghost predicate Known(b: Bracket, seed: nat) {
    Consistent(b) && 1 <= seed <= |b.players|
  }

  /** A seed got as far as round r. */
  ghost predicate Plays(b: Bracket, seed: nat, r: nat)
    requires Known(b, seed)
  {
    1 <= r <= b.rounds && InSlot(b, seed, Main(r, Line(b, seed, r) / 2), SlotOf(Line(b, seed, r)))
  }

  ghost predicate Lost(b: Bracket, seed: nat, r: nat)
    requires Known(b, seed)
  {
    Plays(b, seed, r) && b.rows[Main(r, Line(b, seed, r) / 2)].winner == Some(SlotOf(Line(b, seed, r)).Other())
  }

  ghost predicate Won(b: Bracket, seed: nat, r: nat)
    requires Known(b, seed)
  {
    Plays(b, seed, r) && b.rows[Main(r, Line(b, seed, r) / 2)].winner == Some(SlotOf(Line(b, seed, r)))
  }

  // ---------------------------------------------------------------------------------------- alive or out once

  /** Nobody is in a match of the main bracket but in their own line. */
  lemma OnlyInLine(b: Bracket, seed: nat, r: nat, p: nat, s: Slot)
    requires Known(b, seed) && InSlot(b, seed, Main(r, p), s)
    ensures Plays(b, seed, r) && p == Line(b, seed, r) / 2 && s == SlotOf(Line(b, seed, r))
  {
    Origin(b, r, p, s);
    assert IsPlace(b, Main(r, p));
    hide Consistent, SeatOf, BlockOf, Pow2;
  }

  lemma EverybodyStarts(b: Bracket, seed: nat)
    requires Known(b, seed)
    ensures Plays(b, seed, 1)
  {
    hide RowOk, ShapeOk, LinksOk, SeatOf, Order;
    var i := SeatOf(b.rounds, seed);
    EverySeedOnce(b.rounds, seed, i);
    assert i < 2 * Pow2(b.rounds - 1);
    assert IsPlace(b, Main(1, i / 2));
    RowParts(b, Main(1, i / 2), SlotOf(i));
    assert 2 * (i / 2) + Offset(SlotOf(i)) == i;
  }

  /** A round is reached exactly by winning the one before. */
  lemma NextRound(b: Bracket, seed: nat, r: nat)
    requires Known(b, seed) && 1 <= r < b.rounds
    ensures Plays(b, seed, r + 1) <==> Won(b, seed, r)
  {
    hide RowOk, ShapeOk, LinksOk, SeatOf, BlockOf, Order;
    var q := Line(b, seed, r + 1);
    HalvingOnce(SeatOf(b.rounds, seed), r - 1);
    assert q == Line(b, seed, r) / 2;
    var f, at, s := Main(r, q), Main(r + 1, q / 2), SlotOf(q);
    LineInside(b, seed, r + 1);
    assert IsPlace(b, at);
    RowParts(b, at, s);
    assert Feeder(b, at, s) == Some(f);
    if Plays(b, seed, r + 1) { OnlyInLine(b, seed, r, q, b.rows[f].winner.value); }
  }

  lemma LineInside(b: Bracket, seed: nat, r: nat)
    requires Known(b, seed) && 1 <= r <= b.rounds
    ensures Line(b, seed, r) < 2 * Pow2(b.rounds - r)
  {
    BlockBelow(SeatOf(b.rounds, seed), r - 1, b.rounds);
  }

  lemma {:induction false} BlockBelow(i: nat, d: nat, k: nat)
    requires d <= k && i < Pow2(k)
    ensures BlockOf(i, d) < Pow2(k - d)
  {
    if d > 0 { BlockBelow(i / 2, d - 1, k - 1); }
  }

  datatype Fate = Alive(round: nat) | Out(round: nat) | Champion

  /** Following a seed from a round they reached. */
  ghost function FateFrom(b: Bracket, seed: nat, r: nat): Fate
    requires Known(b, seed) && Plays(b, seed, r)
    decreases b.rounds - r
  {
    if Lost(b, seed, r) then Out(r)
    else if !Won(b, seed, r) then Alive(r)
    else if r == b.rounds then Champion
    else NextRound(b, seed, r); FateFrom(b, seed, r + 1)
  }

  ghost function FateOf(b: Bracket, seed: nat): Fate
    requires Known(b, seed)
  {
    EverybodyStarts(b, seed);
    FateFrom(b, seed, 1)
  }

  /** How far a fate takes a seed: the last round they are in. */
  function LastRound(fate: Fate, rounds: nat): nat {
    if fate.Champion? then rounds else fate.round
  }

  lemma {:induction false} FateFromMeans(b: Bracket, seed: nat, r: nat)
    requires Known(b, seed) && Plays(b, seed, r)
    ensures var fate := FateFrom(b, seed, r);
            r <= LastRound(fate, b.rounds) <= b.rounds &&
            (fate.Champion? <==> Won(b, seed, b.rounds)) &&
            (forall k :: k >= r ==> (Plays(b, seed, k) <==> k <= LastRound(fate, b.rounds))) &&
            (forall k :: k >= r ==> (Lost(b, seed, k) <==> fate == Out(k))) &&
            (fate.Alive? ==> !Won(b, seed, fate.round))
    decreases b.rounds - r
  {
    hide Consistent;
    if r < b.rounds {
      NextRound(b, seed, r);
      if Won(b, seed, r) {
        FateFromMeans(b, seed, r + 1);
      } else {
        forall k | k > r ensures !Plays(b, seed, k) { NotBack(b, seed, r, k); }
      }
    }
  }

  lemma {:induction false} NotBack(b: Bracket, seed: nat, r: nat, k: nat)
    requires Known(b, seed) && 1 <= r < k && !Won(b, seed, r)
    ensures !Plays(b, seed, k)
  {
    if k <= b.rounds {
      NextRound(b, seed, k - 1);
      if k - 1 > r { NotBack(b, seed, r, k - 1); }
    }
  }

  /**
   At any moment every participant is in exactly one of three ways: alive, in one undecided match and having lost
   none; out, having lost exactly one match of the main bracket; or the champion, having lost none.
   */
  lemma OneFate(b: Bracket, seed: nat)
    requires Known(b, seed)
    ensures var fate := FateOf(b, seed);
            1 <= LastRound(fate, b.rounds) <= b.rounds &&
            (fate.Champion? <==> Won(b, seed, b.rounds)) &&
            (forall k: nat :: Plays(b, seed, k) <==> 1 <= k <= LastRound(fate, b.rounds)) &&
            (forall k: nat :: Lost(b, seed, k) <==> fate == Out(k)) &&
            (fate.Alive? ==> !Decided(b, Main(fate.round, Line(b, seed, fate.round) / 2)))
  {
    EverybodyStarts(b, seed);
    FateFromMeans(b, seed, 1);
    var fate := FateOf(b, seed);
    if fate.Alive? {
      var r := fate.round;
      var at := Main(r, Line(b, seed, r) / 2);
      assert Plays(b, seed, r) && !Lost(b, seed, r);
      RowParts(b, at, A);
    }
  }

  // ---------------------------------------------------------------------------------- how many get that far

  ghost function Reached(b: Bracket, r: nat): set<nat>
    requires Consistent(b)
  {
    set seed | 1 <= seed <= |b.players| && Plays(b, seed, r)
  }

  ghost function Champions(b: Bracket): set<nat>
    requires Consistent(b)
  {
    set seed | 1 <= seed <= |b.players| && Won(b, seed, b.rounds)
  }

  /** Whoever is in place q of a round. */
  lemma Occupant(b: Bracket, r: nat, q: nat) returns (seed: nat)
    requires Consistent(b) && Ended(b) && 2 <= r <= b.rounds && q < 2 * Pow2(b.rounds - r)
    ensures 1 <= seed <= |b.players| && Plays(b, seed, r) && Line(b, seed, r) == q
  {
    var at := Main(r, q / 2);
    assert IsPlace(b, at);
    DecidedFromTheTop(b, r, q / 2);
    RowParts(b, at, A);
    assert b.rows[at].Both();
    var e := b.rows[at].Of(SlotOf(q)).value;
    Origin(b, r, q / 2, SlotOf(q));
    seed := e.seed;
    hide ShapeOk, LinksOk, SlotOk, SeatOf, BlockOf;
    OnlyInLine(b, seed, r, q / 2, SlotOf(q));
  }

  ghost function FirstLines(b: Bracket, r: nat, m: nat): set<nat>
    requires Consistent(b)
  {
    set seed | seed in Reached(b, r) && Line(b, seed, r) < m
  }

  lemma {:induction false} CountLines(b: Bracket, r: nat, m: nat)
    requires Consistent(b) && Ended(b) && 2 <= r <= b.rounds && m <= 2 * Pow2(b.rounds - r)
    ensures |FirstLines(b, r, m)| == m
  {
    hide RowOk, Ended, IsPlace, Plays, Line, BlockOf, SeatOf;
    if m > 0 {
      CountLines(b, r, m - 1);
      var seed := Occupant(b, r, m - 1);
      forall other | other in Reached(b, r) && Line(b, other, r) == m - 1 ensures other == seed {
        SameLine(b, r, seed, other);
      }
      assert FirstLines(b, r, m) == FirstLines(b, r, m - 1) + {seed};
    } else {
      assert FirstLines(b, r, 0) == {};
    }
  }

  lemma SameLine(b: Bracket, r: nat, x: nat, y: nat)
    requires Consistent(b) && 1 <= x <= |b.players| && 1 <= y <= |b.players| && Plays(b, x, r) && Plays(b, y, r)
    requires Line(b, x, r) == Line(b, y, r)
    ensures x == y
  {}

  /** Round r of a finished tournament was reached by 2^(R-r+1) participants, whatever the byes. */
  lemma ReachedCount(b: Bracket, r: nat)
    requires Consistent(b) && Ended(b) && 2 <= r <= b.rounds
    ensures |Reached(b, r)| == 2 * Pow2(b.rounds - r)
  {
    CountLines(b, r, 2 * Pow2(b.rounds - r));
    forall seed | seed in Reached(b, r) ensures Line(b, seed, r) < 2 * Pow2(b.rounds - r) {
      LineInside(b, seed, r);
    }
    assert Reached(b, r) == FirstLines(b, r, 2 * Pow2(b.rounds - r));
  }

  lemma OneChampion(b: Bracket)
    requires Consistent(b) && Ended(b)
    ensures |Champions(b)| == 1
  {
    var at := Main(b.rounds, 0);
    FinalIsPlace(b);
    RowParts(b, at, A);
    var s := b.rows[at].winner.value;
    Origin(b, b.rounds, 0, s);
    var champion := b.rows[at].Of(s).value.seed;
    OnlyInLine(b, champion, b.rounds, 0, s);
    forall seed | 1 <= seed <= |b.players| ensures Won(b, seed, b.rounds) <==> seed == champion {
      if Won(b, seed, b.rounds) {
        LineInside(b, seed, b.rounds);
        assert Pow2(0) == 1;
        SameLine(b, b.rounds, seed, champion);
      }
    }
    assert Champions(b) == {champion};
  }

  lemma NobodyAlive(b: Bracket, seed: nat)
    requires Known(b, seed) && Ended(b)
    ensures !FateOf(b, seed).Alive?
  {
    OneFate(b, seed);
    var fate := FateOf(b, seed);
    if fate.Alive? {
      assert Plays(b, seed, fate.round);
      DecidedFromTheTop(b, fate.round, Line(b, seed, fate.round) / 2);
    }
  }
}
