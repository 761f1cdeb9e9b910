/** Seeds, sizes and rounds of a single-elimination bracket (judge/arena/tournament.py). */
module Seeding {
  import opened Common

  function Pow2(k: nat): (n: nat)
    ensures n >= 1
  {
    if k == 0 then 1 else 2 * Pow2(k - 1)
  }

  /** Each seed followed by the one it meets: [current, total - current] for every current. */
  function Paired(order: seq<nat>, total: nat): seq<nat>
    requires forall i :: 0 <= i < |order| ==> order[i] <= total
  {
    if order == [] then [] else [order[0], total - order[0]] + Paired(order[1..], total)
  }

  lemma {:induction false} PairedAt(order: seq<nat>, total: nat, i: nat)
    requires (forall k :: 0 <= k < |order| ==> order[k] <= total) && i < |order|
    ensures |Paired(order, total)| == 2 * |order|
    ensures Paired(order, total)[2 * i] == order[i] && Paired(order, total)[2 * i + 1] == total - order[i]
  {
    if |order| > 1 {
      PairedAt(order[1..], total, if i > 0 then i - 1 else 0);
    }
  }

  /** The seeds of a bracket of 2^k places, in bracket order. */
  function Order(k: nat): (order: seq<nat>)
    ensures |order| == Pow2(k) && forall i :: 0 <= i < |order| ==> 1 <= order[i] <= Pow2(k)
  {
    if k == 0 then [1]
    else
      var smaller := Order(k - 1);
      PairedSize(smaller, 2 * Pow2(k - 1) + 1);
      Paired(smaller, 2 * Pow2(k - 1) + 1)
  }

  lemma {:induction false} PairedSize(order: seq<nat>, total: nat)
    requires forall i :: 0 <= i < |order| ==> 1 <= order[i] < total
    ensures |Paired(order, total)| == 2 * |order|
    ensures forall i :: 0 <= i < |Paired(order, total)| ==> 1 <= Paired(order, total)[i] < total
  {
    if order != [] { PairedSize(order[1..], total); }
  }

  lemma OrderAt(k: nat, i: nat)
    requires k > 0 && i < Pow2(k - 1)
    ensures 2 * i + 1 < Pow2(k)
    ensures Order(k)[2 * i] == Order(k - 1)[i] && Order(k)[2 * i + 1] == Pow2(k) + 1 - Order(k - 1)[i]
  {
    PairedAt(Order(k - 1), 2 * Pow2(k - 1) + 1, i);
  }

  method SeedingOrder(size: nat) returns (order: seq<nat>, ghost k: nat)
    ensures order == Order(k) && size <= |order| && (k > 0 ==> Pow2(k - 1) < size)
  {
    hide Order, Paired;
    order, k := [1], 0;
    OrderStarts();
    while |order| < size
      invariant order == Order(k) && |order| == Pow2(k) && (k > 0 ==> Pow2(k - 1) < size)
      decreases size - |order|
    {
      var total := |order| * 2 + 1;
      var next: seq<nat> := [];
      PairedStarts(order, total);
      for i := 0 to |order|
        invariant next == Paired(order[..i], total)
      {
        PairedUpTo(order, i, total);
        next := next + [order[i], total - order[i]];
      }
      OrderNext(k);
      assert order[..|order|] == order;
      order, k := next, k + 1;
    }
  }

  lemma {:induction false} PairedNext(order: seq<nat>, s: nat, total: nat)
    requires s <= total && forall i :: 0 <= i < |order| ==> order[i] <= total
    ensures Paired(order + [s], total) == Paired(order, total) + [s, total - s]
  {
    if order == [] {
      assert ([] + [s])[1..] == [];
    } else {
      assert (order + [s])[1..] == order[1..] + [s];
      PairedNext(order[1..], s, total);
    }
  }

  lemma PairedUpTo(order: seq<nat>, i: nat, total: nat)
    requires i < |order| && forall k :: 0 <= k < |order| ==> order[k] <= total
    ensures Paired(order[..i + 1], total) == Paired(order[..i], total) + [order[i], total - order[i]]
  {
    assert order[..i + 1] == order[..i] + [order[i]];
    PairedNext(order[..i], order[i], total);
  }

  lemma PairedStarts(order: seq<nat>, total: nat)
    requires forall k :: 0 <= k < |order| ==> order[k] <= total
    ensures Paired(order[..0], total) == []
  {}

  lemma OrderStarts()
    ensures Order(0) == [1]
  {}

  lemma OrderNext(k: nat)
    ensures forall i :: 0 <= i < |Order(k)| ==> Order(k)[i] <= |Order(k)| * 2 + 1
    ensures Order(k + 1) == Paired(Order(k), |Order(k)| * 2 + 1)
  {}

  /** The least power of two that holds `count` players. */
  method BracketSize(count: nat) returns (size: nat, ghost k: nat)
    ensures size == Pow2(k) && count <= size && (k > 0 ==> Pow2(k - 1) < count)
  {
    size, k := 1, 0;
    while size < count
      invariant size == Pow2(k) && (k > 0 ==> Pow2(k - 1) < count)
      decreases count - size
    {
      size, k := size * 2, k + 1;
    }
  }

  method RoundCount(count: nat) returns (rounds: nat)
    ensures count <= Pow2(rounds) && (rounds > 0 ==> Pow2(rounds - 1) < count)
  {
    var size, k := BracketSize(count);
    rounds := 0;
    ghost var left := k;
    while size > 1
      invariant size == Pow2(left) && rounds + left == k
      decreases size
    {
      size, left := size / 2, left - 1;
      rounds := rounds + 1;
    }
  }

  // --------------------------------------------------------------------------------------- the seeding is fair

  /** Where a seed is in the bracket. */
  function SeatOf(k: nat, seed: nat): (seat: nat)
    requires 1 <= seed <= Pow2(k)
    ensures seat < Pow2(k)
  {
    if k == 0 then 0
    else if seed <= Pow2(k - 1) then 2 * SeatOf(k - 1, seed)
    else 2 * SeatOf(k - 1, Pow2(k) + 1 - seed) + 1
  }

  /** Every seed from 1 to the size is in the bracket exactly once. */
  lemma {:induction false} EverySeedOnce(k: nat, seed: nat, i: nat)
    requires 1 <= seed <= Pow2(k) && i < Pow2(k)
    ensures Order(k)[SeatOf(k, seed)] == seed
    ensures Order(k)[i] == seed ==> i == SeatOf(k, seed)
  {
    hide Order;
    if k > 0 {
      OrderAt(k, i / 2);
      var s := if seed <= Pow2(k - 1) then seed else Pow2(k) + 1 - seed;
      EverySeedOnce(k - 1, s, i / 2);
      OrderAt(k, SeatOf(k - 1, s));
      assert i == 2 * (i / 2) || i == 2 * (i / 2) + 1;
    }
  }

  /** Opponents of the first round add up to one more than the size, and the better ones form the smaller bracket. */
  lemma FirstRoundPairs(k: nat, i: nat)
    requires k > 0 && i < Pow2(k - 1)
    ensures 2 * i + 1 < Pow2(k)
    ensures Order(k)[2 * i] + Order(k)[2 * i + 1] == Pow2(k) + 1
    ensures Min(Order(k)[2 * i], Order(k)[2 * i + 1]) == Order(k - 1)[i] == Order(k)[2 * i]
  {
    OrderAt(k, i);
  }

  /** The block of size 2^d a place is in: its number halved d times. */
  function BlockOf(i: nat, d: nat): nat {
    if d == 0 then i else BlockOf(i / 2, d - 1)
  }

  /** The first place of block b of size 2^d. */
  function BlockStart(b: nat, d: nat): nat {
    if d == 0 then b else 2 * BlockStart(b, d - 1)
  }

  /** Block b of size 2^d is the 2^d consecutive places from its first one on. */
  lemma {:induction false} BlockIsInterval(i: nat, b: nat, d: nat)
    ensures BlockOf(i, d) == b <==> BlockStart(b, d) <= i < BlockStart(b, d) + Pow2(d)
  {
    if d > 0 {
      BlockIsInterval(i / 2, b, d - 1);
      EvenOrOdd(i);
    }
  }

  lemma {:induction false} Pow2Grows(j: nat, k: nat)
    requires j <= k
    ensures Pow2(j) <= Pow2(k)
  {
    if j < k { Pow2Grows(j, k - 1); }
  }

  lemma EvenOrOdd(i: nat)
    ensures i == 2 * (i / 2) || i == 2 * (i / 2) + 1
  {}

  /** The block of the bracket a top seed is in, among 2^j equal blocks, is its own seat in the bracket of 2^j. */
  lemma {:induction false} TopSeedsApart(j: nat, k: nat, i: nat)
    requires j <= k && i < Pow2(k) && Order(k)[i] <= Pow2(j)
    ensures BlockOf(i, k - j) == SeatOf(j, Order(k)[i])
    decreases k
  {
    if j < k {
      OrderAt(k, i / 2);
      Pow2Grows(j, k - 1);
      EvenOrOdd(i);
      TopSeedsApart(j, k - 1, i / 2);
    } else {
      EverySeedOnce(k, Order(k)[i], i);
    }
  }

  /** The top 2^j seeds are in different blocks: they cannot meet before only they are left. */
  lemma TopSeedsMeetLate(j: nat, k: nat, i: nat, l: nat)
    requires j <= k && i < Pow2(k) && l < Pow2(k) && Order(k)[i] <= Pow2(j) && Order(k)[l] <= Pow2(j)
    requires BlockOf(i, k - j) == BlockOf(l, k - j)
    ensures i == l
  {
    TopSeedsApart(j, k, i);
    TopSeedsApart(j, k, l);
    EverySeedOnce(j, Order(k)[i], SeatOf(j, Order(k)[i]));
    EverySeedOnce(j, Order(k)[l], SeatOf(j, Order(k)[l]));
    EverySeedOnce(k, Order(k)[i], i);
    EverySeedOnce(k, Order(k)[l], l);
  }

  /** No first-round match is empty, and the byes go exactly to the best seeds. */
  lemma ByesGoToTheBest(k: nat, count: nat, i: nat)
    requires k > 0 && Pow2(k - 1) < count <= Pow2(k) && i < Pow2(k - 1)
    ensures 2 * i + 1 < Pow2(k)
    ensures Order(k)[2 * i] <= count
    ensures Order(k)[2 * i + 1] > count <==> Order(k)[2 * i] <= Pow2(k) - count
  {
    FirstRoundPairs(k, i);
  }
}
