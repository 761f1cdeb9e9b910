/** Ranks with ties (judge/ratings.py): everybody in a group of equal points gets the average of its places. */
module TieRanker {
  /** The first place of the group a participant is in, counting from 0. */
  function First(points: seq<real>, i: nat): (first: nat)
    requires i < |points|
    ensures first <= i
  {
    if i == 0 || points[i - 1] != points[i] then i else First(points, i - 1)
  }

  /** The place after the last of the group. */
  function End(points: seq<real>, i: nat): (end: nat)
    requires i < |points|
    ensures i < end <= |points|
    decreases |points| - i
  {
    if i + 1 == |points| || points[i + 1] != points[i] then i + 1 else End(points, i + 1)
  }

  /** The average of the places of the group, counting from 1. */
  function RankOf(points: seq<real>, i: nat): real
    requires i < |points|
  {
    (First(points, i) + End(points, i) + 1) as real / 2.0
  }

  lemma {:induction false} SameGroup(points: seq<real>, i: nat, j: nat)
    requires j < |points| && First(points, j) <= i <= j
    ensures points[i] == points[j] && First(points, i) == First(points, j) && End(points, i) == End(points, j)
  {
    if i < j { SameGroup(points, i, j - 1); }
  }

  lemma {:induction false} NextGroup(points: seq<real>, i: nat)
    requires i < |points|
    ensures End(points, i) < |points| ==>
              First(points, End(points, i)) == End(points, i) && points[End(points, i)] != points[i]
    decreases |points| - i
  {
    if i + 1 < |points| && points[i + 1] == points[i] { NextGroup(points, i + 1); }
  }

  method Rank(points: seq<real>) returns (ranks: seq<real>)
    ensures |ranks| == |points| && forall i :: 0 <= i < |points| ==> ranks[i] == RankOf(points, i)
  {
    hide End, RankOf;
    ranks := [];
    var rank, delta, buffered := 0, 1, 0;
    for i := 0 to |points|
      invariant buffered <= i && |ranks| == i - buffered
      invariant i == 0 ==> rank == 0 && delta == 1 && buffered == 0
      invariant i > 0 ==> buffered == delta == i - First(points, i - 1) && rank == First(points, i - 1) + 1
      invariant forall k :: 0 <= k < |ranks| ==> ranks[k] == RankOf(points, k)
    {
      if i == 0 || points[i] != points[i - 1] {
        if i > 0 { EndOfGroup(points, i - 1); }
        for k := 0 to buffered
          invariant |ranks| == i - buffered + k
          invariant forall m :: 0 <= m < |ranks| ==> ranks[m] == RankOf(points, m)
        {
          GroupRank(points, |ranks|, i - 1);
          ranks := ranks + [rank as real + (delta - 1) as real / 2.0];
        }
        rank, delta, buffered := rank + delta, 0, 0;
      }
      delta, buffered := delta + 1, buffered + 1;
    }
    if |points| > 0 { EndOfGroup(points, |points| - 1); }
    for k := 0 to buffered
      invariant |ranks| == |points| - buffered + k
      invariant forall m :: 0 <= m < |ranks| ==> ranks[m] == RankOf(points, m)
    {
      GroupRank(points, |ranks|, |points| - 1);
      ranks := ranks + [rank as real + (delta - 1) as real / 2.0];
    }
  }

  lemma EndOfGroup(points: seq<real>, i: nat)
    requires i < |points| && (i + 1 == |points| || points[i + 1] != points[i])
    ensures End(points, i) == i + 1
  {}

  lemma GroupRank(points: seq<real>, i: nat, last: nat)
    requires last < |points| && First(points, last) <= i <= last && End(points, last) == last + 1
    ensures RankOf(points, i) == (First(points, last) + 1) as real + (last - First(points, last)) as real / 2.0
  {
    SameGroup(points, i, last);
  }

  // ------------------------------------------------------------------------------------ what the ranks are for

  ghost predicate Falling(points: seq<real>) {
    forall i, j :: 0 <= i <= j < |points| ==> points[j] <= points[i]
  }

  /** With points in falling order ranks compare as the points do: the same for the same points, worse for fewer. */
  lemma RanksFollowPoints(points: seq<real>, i: nat, j: nat)
    requires Falling(points) && i <= j < |points|
    ensures RankOf(points, i) <= RankOf(points, j)
    ensures RankOf(points, i) == RankOf(points, j) <==> points[i] == points[j]
  {
    if points[i] == points[j] {
      Together(points, i, j);
      SameGroup(points, i, j);
    } else {
      Apart(points, i, j);
    }
  }

  lemma {:induction false} Together(points: seq<real>, i: nat, j: nat)
    requires Falling(points) && i <= j < |points| && points[i] == points[j]
    ensures First(points, j) <= i
  {
    if i < j {
      assert points[j] <= points[j - 1] <= points[i];
      Together(points, i, j - 1);
    }
  }

  lemma {:induction false} Apart(points: seq<real>, i: nat, j: nat)
    requires i < j < |points| && points[i] != points[j]
    ensures First(points, i) < First(points, j) && End(points, i) < End(points, j)
  {
    NextGroup(points, i);
    EndBefore(points, i, j);
    FirstIn(points, End(points, i), j);
  }

  lemma {:induction false} EndBefore(points: seq<real>, i: nat, j: nat)
    requires i < j < |points| && points[i] != points[j]
    ensures End(points, i) <= j
    decreases |points| - i
  {
    if points[i + 1] == points[i] { EndBefore(points, i + 1, j); }
  }

  /** From the start of a group on, groups start no earlier. */
  lemma {:induction false} FirstIn(points: seq<real>, start: nat, j: nat)
    requires start <= j < |points| && First(points, start) == start
    ensures First(points, j) >= start
  {
    if start < j { FirstIn(points, start, j - 1); }
  }

  /** Twice a rank, which is a whole number. */
  function Doubled(points: seq<real>, i: nat): nat
    requires i < |points|
  {
    First(points, i) + End(points, i) + 1
  }

  function SumDoubled(points: seq<real>, i: nat): nat
    requires i <= |points|
  {
    if i == 0 then 0 else SumDoubled(points, i - 1) + Doubled(points, i - 1)
  }

  function SumRanks(points: seq<real>, i: nat): real
    requires i <= |points|
  {
    if i == 0 then 0.0 else SumRanks(points, i - 1) + RankOf(points, i - 1)
  }

  lemma {:induction false} SumIsHalf(points: seq<real>, i: nat)
    requires i <= |points|
    ensures SumRanks(points, i) == SumDoubled(points, i) as real / 2.0
  {
    if i > 0 { SumIsHalf(points, i - 1); }
  }

  /** Inside a group every rank is the same. */
  lemma {:induction false} SumInGroup(points: seq<real>, i: nat)
    requires 0 < i <= |points|
    ensures var first := First(points, i - 1);
            SumDoubled(points, i) == SumDoubled(points, first) + (i - first) * Doubled(points, i - 1)
  {
    hide Doubled;
    var first := First(points, i - 1);
    if first < i - 1 {
      SumInGroup(points, i - 1);
      SameDoubled(points, i - 2, i - 1);
    }
    OneMore(i - 1 - first, Doubled(points, i - 1));
  }

  lemma SameDoubled(points: seq<real>, i: nat, j: nat)
    requires j < |points| && First(points, j) <= i <= j
    ensures Doubled(points, i) == Doubled(points, j) && First(points, i) == First(points, j)
  {
    SameGroup(points, i, j);
  }

  lemma OneMore(n: int, d: int)
    ensures n * d + d == (n + 1) * d && (n == 0 ==> n * d == 0)
  {}

  lemma PlacesOf(first: int, end: int)
    ensures first * (first + 1) + (end - first) * (first + end + 1) == end * (end + 1)
  {}

  /** The ranks of whole groups add up to their places, however many are tied. */
  lemma {:induction false} GroupsAddUp(points: seq<real>, i: nat)
    requires i <= |points| && (i == 0 || End(points, i - 1) == i)
    ensures SumDoubled(points, i) == i * (i + 1)
  {
    if i > 0 {
      var first := First(points, i - 1);
      SumInGroup(points, i);
      if first > 0 { GroupsMeet(points, i - 1); }
      GroupsAddUp(points, first);
      PlacesOf(first, i);
    }
  }

  lemma {:induction false} GroupsMeet(points: seq<real>, i: nat)
    requires i < |points| && First(points, i) > 0
    ensures End(points, First(points, i) - 1) == First(points, i)
  {
    if points[i - 1] == points[i] { GroupsMeet(points, i - 1); }
  }

  /** The ranks of n participants add up to n(n + 1)/2, whatever the ties. */
  lemma RanksAddUp(points: seq<real>)
    ensures SumRanks(points, |points|) == (|points| * (|points| + 1)) as real / 2.0
  {
    SumIsHalf(points, |points|);
    GroupsAddUp(points, |points|);
  }
}
