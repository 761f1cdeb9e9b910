/** Putting things in a strict order: there is only one way to do it. */
module Ordering {
  ghost predicate Strict<T(!new)>(before: (T, T) -> bool) {
    (forall x, y :: before(x, y) ==> !before(y, x)) &&
    forall x, y, z :: before(x, y) && before(y, z) ==> before(x, z)
  }

  ghost predicate Sorted<T>(items: seq<T>, before: (T, T) -> bool) {
    forall i, j :: 0 <= i < j < |items| ==> before(items[i], items[j])
  }

  lemma PutBetween<T(!new)>(items: seq<T>, item: T, before: (T, T) -> bool, i: nat)
    requires Sorted(items, before) && i <= |items|
    requires forall k :: 0 <= k < i ==> before(items[k], item)
    requires forall k :: i <= k < |items| ==> before(item, items[k])
    ensures Sorted(items[..i] + [item] + items[i..], before)
    ensures forall x :: x in items[..i] + [item] + items[i..] <==> x in items || x == item
  {
    assert items == items[..i] + items[i..];
    var more := items[..i] + [item] + items[i..];
    forall j, k | 0 <= j < k < |more| ensures before(more[j], more[k]) {
      assert more[j] == if j < i then items[j] else if j == i then item else items[j - 1];
      assert more[k] == if k < i then items[k] else if k == i then item else items[k - 1];
    }
  }

  /** The place of an item among others that are sorted. */
  method Insert<T(!new)>(items: seq<T>, item: T, before: (T, T) -> bool) returns (more: seq<T>)
    requires Strict(before) && Sorted(items, before)
    requires forall x :: x in items ==> before(x, item) || before(item, x)
    ensures Sorted(more, before) && forall x :: x in more <==> x in items || x == item
  {
    var i := |items|;
    while i > 0 && before(item, items[i - 1])
      invariant 0 <= i <= |items| && forall k :: i <= k < |items| ==> before(item, items[k])
    {
      i := i - 1;
    }
    BeforeTheRest(items, item, before, i);
    PutBetween(items, item, before, i);
    more := items[..i] + [item] + items[i..];
  }

  lemma BeforeTheRest<T(!new)>(items: seq<T>, item: T, before: (T, T) -> bool, i: nat)
    requires Strict(before) && Sorted(items, before) && i <= |items|
    requires forall x :: x in items ==> before(x, item) || before(item, x)
    requires i > 0 ==> !before(item, items[i - 1])
    ensures forall k :: 0 <= k < i ==> before(items[k], item)
  {
    if i > 0 { assert items[i - 1] in items; }
  }

  lemma {:induction false} OneOrder<T(!new)>(x: seq<T>, y: seq<T>, before: (T, T) -> bool)
    requires Strict(before) && Sorted(x, before) && Sorted(y, before) && forall item :: item in x <==> item in y
    ensures x == y
  {
    if x != [] && y != [] {
      FirstIsFirst(x, y, before);
      RestSame(x, y, before);
      OneOrder(x[1..], y[1..], before);
      assert x == [x[0]] + x[1..] && y == [y[0]] + y[1..];
    } else {
      EmptyTogether(x, y);
      EmptyTogether(y, x);
    }
  }

  lemma EmptyTogether<T(!new)>(x: seq<T>, y: seq<T>)
    requires forall item :: item in x ==> item in y
    ensures y == [] ==> x == []
  {
    if x != [] { assert x[0] in x; }
  }

  lemma FirstIsFirst<T(!new)>(x: seq<T>, y: seq<T>, before: (T, T) -> bool)
    requires Strict(before) && Sorted(x, before) && Sorted(y, before) && forall item :: item in x <==> item in y
    requires x != [] && y != []
    ensures x[0] == y[0]
  {
    assert x[0] in y && y[0] in x;
    var i :| 0 <= i < |y| && y[i] == x[0];
    var j :| 0 <= j < |x| && x[j] == y[0];
  }

  lemma RestSame<T(!new)>(x: seq<T>, y: seq<T>, before: (T, T) -> bool)
    requires Strict(before) && Sorted(x, before) && Sorted(y, before) && forall item :: item in x <==> item in y
    requires x != [] && y != [] && x[0] == y[0]
    ensures forall item :: item in x[1..] <==> item in y[1..]
  {
    forall item ensures item in x[1..] <==> item in y[1..] {
      InRest(x, item, before);
      InRest(y, item, before);
    }
  }

  lemma InRest<T(!new)>(x: seq<T>, item: T, before: (T, T) -> bool)
    requires Strict(before) && Sorted(x, before) && x != []
    ensures item in x[1..] <==> item in x && item != x[0]
  {
    if item in x && item != x[0] {
      var i :| 0 <= i < |x| && x[i] == item;
      assert x[1..][i - 1] == item;
    }
  }
}
