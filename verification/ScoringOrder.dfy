/**
 How standings compare: which changes to a list of events can only raise a standing, and which can only lower it.
 The rules that call a game early rest on these facts.
 */
module ScoringOrder {
  import opened Common
  import opened Scoring

  // ------------------------------------------------------------------------------------ comparing standings

  /** `r` is worth at least `s`: more points, or the same points no later and with no more failed attempts. */
  predicate RowAtLeast(r: Row, s: Row) {
    r.best > s.best ||
    (r.best == s.best &&
     (r.best == 0 || (r.bestAt.Some? && s.bestAt.Some? && r.bestAt.value <= s.bestAt.value &&
                      r.penalized <= s.penalized)))
  }

  /** `s` ranks at least as high as `t`. */
  predicate AtLeast(s: Standing, t: Standing) {
    s.score > t.score ||
    (s.score == t.score &&
     (s.score == 0 || (s.effective.Some? && t.effective.Some? && s.effective.value <= t.effective.value)))
  }

  /** What every row computed by RowOf satisfies: no points, no date and no penalty. */
  predicate SoundRow(r: Row) {
    (r.best == 0 <==> r.bestAt.None?) && (r.best == 0 ==> r.penalized == 0)
  }

  lemma BeatsIsMonotone(s: Standing, t: Standing, s': Standing, t': Standing)
    requires Beats(s, t) && AtLeast(s', s) && AtLeast(t, t')
    ensures Beats(s', t')
  {}

  lemma BestIsReached(events: seq<Event>)
    ensures Best(events) > 0 ==> First(events, Best(events)) < |events|
    ensures forall i :: 0 <= i < |events| ==> events[i].points <= Best(events)
    ensures Best(events) == 0 || exists i :: 0 <= i < |events| && events[i].points == Best(events)
  {
    if events != [] {
      BestIsReached(events[1..]);
      forall i | 0 <= i < |events| ensures events[i].points <= Best(events) {
        if i > 0 { assert events[i] == events[1..][i - 1]; }
      }
      if Best(events) == events[0].points {
      } else if Best(events) > 0 {
        var i :| 0 <= i < |events[1..]| && events[1..][i].points == Best(events[1..]);
        assert events[i + 1].points == Best(events);
      }
    }
  }

  lemma BestIs(events: seq<Event>, v: nat)
    requires forall i :: 0 <= i < |events| ==> events[i].points <= v
    requires v == 0 || exists i :: 0 <= i < |events| && events[i].points == v
    ensures Best(events) == v
  {
    BestIsReached(events);
  }

  lemma RowsAreSound(ordered: seq<Event>, full: nat)
    ensures SoundRow(RowOf(ordered, full))
    ensures RowOf(ordered, full).best == Best(ordered)
  {
    BestIsReached(ordered);
  }

  lemma {:induction false} TotalsCompare(rs: seq<Row>, ss: seq<Row>)
    requires |rs| == |ss|
    requires forall i :: 0 <= i < |rs| ==> SoundRow(rs[i]) && SoundRow(ss[i]) && RowAtLeast(rs[i], ss[i])
    ensures Total(rs) >= Total(ss)
    ensures Total(rs) == Total(ss) ==> TotalPenalized(rs) <= TotalPenalized(ss)
    ensures Total(rs) == Total(ss) ==> Reach(rs).Some? == Reach(ss).Some?
    ensures Total(rs) == Total(ss) && Reach(rs).Some? ==> Reach(rs).value <= Reach(ss).value
  {
    if rs != [] {
      var n := |rs| - 1;
      TotalsCompare(rs[..n], ss[..n]);
      assert RowAtLeast(rs[n], ss[n]);
    }
  }

  lemma {:induction false} ReachIffPoints(rs: seq<Row>)
    requires forall i :: 0 <= i < |rs| ==> SoundRow(rs[i])
    ensures Reach(rs).Some? <==> Total(rs) > 0
  {
    if rs != [] { ReachIffPoints(rs[..|rs| - 1]); }
  }

  lemma ProductGrows(penalty: nat, m: nat, n: nat)
    requires m <= n
    ensures penalty * MINUTE * m <= penalty * MINUTE * n
  {
    var k := n - m;
    assert n == m + k;
    assert penalty * MINUTE * n == penalty * MINUTE * m + penalty * MINUTE * k;
    assert penalty * MINUTE * k >= 0;
  }

  lemma StandingsCompare(rs: seq<Row>, ss: seq<Row>, penalty: nat, startedAt: int)
    requires |rs| == |ss|
    requires forall i :: 0 <= i < |rs| ==> SoundRow(rs[i]) && SoundRow(ss[i]) && RowAtLeast(rs[i], ss[i])
    ensures AtLeast(FromRows(rs, penalty, startedAt), FromRows(ss, penalty, startedAt))
  {
    TotalsCompare(rs, ss);
    ReachIffPoints(rs);
    ReachIffPoints(ss);
    if Total(rs) == Total(ss) {
      ProductGrows(penalty, TotalPenalized(rs), TotalPenalized(ss));
    }
  }

  // --------------------------------------------------------------------------------- rows of split sequences

  lemma {:induction false} BestOfConcat(x: seq<Event>, y: seq<Event>)
    ensures Best(x + y) == Max(Best(x), Best(y))
  {
    if x == [] {
      assert x + y == y;
    } else {
      assert (x + y)[1..] == x[1..] + y;
      BestOfConcat(x[1..], y);
    }
  }

  lemma {:induction false} FailedOfConcat(x: seq<Event>, y: seq<Event>)
    ensures Failed(x + y) == Failed(x) + Failed(y)
  {
    if x == [] {
      assert x + y == y;
    } else {
      assert (x + y)[1..] == x[1..] + y;
      FailedOfConcat(x[1..], y);
    }
  }

  predicate DatesInOrder(events: seq<Event>) {
    forall i, j :: 0 <= i <= j < |events| ==> events[i].date <= events[j].date
  }

  /** Once a full solve `e` comes first, whatever follows it cannot make the row better. */
  lemma FullSolveDominates(x: seq<Event>, e: Event, y: seq<Event>, z: seq<Event>, full: nat)
    requires full > 0 && e.points == full
    requires forall i :: 0 <= i < |x| ==> x[i].points < full
    requires forall i :: 0 <= i < |y| ==> y[i].points <= full
    requires forall i :: 0 <= i < |z| ==> z[i].points <= full && z[i].date >= e.date
    ensures RowAtLeast(RowOf(x + [e] + y, full), RowOf(x + z, full))
  {
    var es, fs := x + [e] + y, x + z;
    assert es[|x|] == e;
    BestIs(es, full);
    assert First(es, full) == |x|;
    assert es[..|x|] == x;
    BestIsReached(fs);
    if Best(fs) == full {
      var j := First(fs, full);
      assert |x| <= j;
      assert fs[j] == z[j - |x|];
      assert fs[..j] == x + z[..j - |x|];
      FailedOfConcat(x, z[..j - |x|]);
    } else {
      assert forall i :: 0 <= i < |fs| ==> fs[i].points <= full;
    }
  }

  /** The row, from where its first best event is. */
  lemma RowAt(events: seq<Event>, full: nat, i: nat)
    requires i < |events| && events[i].points > 0
    requires forall k :: 0 <= k < i ==> events[k].points < events[i].points
    requires forall k :: 0 <= k < |events| ==> events[k].points <= events[i].points
    ensures var best, at := events[i].points, events[i].date;
            RowOf(events, full) == Row(best, best >= full, 0, 0, Failed(events[..i]), Some(at),
                                       if best >= full then Some(at) else None)
  {
    BestIs(events, events[i].points);
  }

  /** The row when the best event comes after all of `x`. */
  lemma RowBehind(x: seq<Event>, y: seq<Event>, full: nat, i: nat)
    requires i < |y| && y[i].points > 0
    requires forall k :: 0 <= k < |x| ==> x[k].points < y[i].points
    requires forall k :: 0 <= k < i ==> y[k].points < y[i].points
    requires forall k :: 0 <= k < |y| ==> y[k].points <= y[i].points
    ensures var best, at := y[i].points, y[i].date;
            RowOf(x + y, full) == Row(best, best >= full, 0, 0, Failed(x + y[..i]), Some(at),
                                      if best >= full then Some(at) else None)
  {
    hide RowOf, Failed;
    var es, n := x + y, |x| + i;
    PrefixOfConcat(x, y, i);
    assert es[n] == y[i];
    forall k | 0 <= k < |es| ensures es[k].points <= es[n].points && (k < n ==> es[k].points < es[n].points) {
      assert es[k] == if k < |x| then x[k] else y[k - |x|];
    }
    RowAt(es, full, n);
  }

  /** A failed attempt in front of the best one, replaced by any other verdict. */
  lemma FailingBefore(x: seq<Event>, e: Event, e': Event, y: seq<Event>, full: nat, i: nat)
    requires e.points == 0 && e.penalizable && e'.date == e.date
    requires i < |y| && y[i].points > 0 && e.date <= y[i].date
    requires forall k :: 0 <= k < |x| ==> x[k].points < y[i].points
    requires forall k :: 0 <= k < i ==> y[k].points < y[i].points
    requires forall k :: 0 <= k < |y| ==> y[k].points <= y[i].points
    requires e'.points <= y[i].points
    ensures RowAtLeast(RowOf(x + [e'] + y, full), RowOf(x + [e] + y, full))
  {
    hide RowOf, Failed;
    FailedAround(x, e, y[..i]);
    FailedAround(x, e', y[..i]);
    RowBehind(x + [e], y, full, i);
    if e'.points == y[i].points {
      RowHere(x, e', y, full);
    } else {
      RowBehind(x + [e'], y, full, i);
    }
  }

  lemma RowHere(x: seq<Event>, e: Event, y: seq<Event>, full: nat)
    requires e.points > 0
    requires forall k :: 0 <= k < |x| ==> x[k].points < e.points
    requires forall k :: 0 <= k < |y| ==> y[k].points <= e.points
    ensures RowOf(x + [e] + y, full) == Row(e.points, e.points >= full, 0, 0, Failed(x), Some(e.date),
                                            if e.points >= full then Some(e.date) else None)
  {
    hide RowOf, Failed;
    Associative(x, [e], y);
    RowBehind(x, [e] + y, full, 0);
    assert x + ([e] + y)[..0] == x;
  }

  lemma FailedAround(x: seq<Event>, e: Event, y: seq<Event>)
    ensures Failed(x + [e] + y) == Failed(x) + (if e.penalizable then 1 else 0) + Failed(y)
  {
    FailedOfConcat(x + [e], y);
    FailedOfConcat(x, [e]);
  }

  /** A failed attempt behind the best one, replaced by any other verdict. */
  lemma FailingAfter(x: seq<Event>, rest: seq<Event>, rest': seq<Event>, full: nat, i: nat)
    requires i < |x| && x[i].points > 0
    requires forall k :: 0 <= k < i ==> x[k].points < x[i].points
    requires forall k :: 0 <= k < |x| ==> x[k].points <= x[i].points
    requires forall k :: 0 <= k < |rest| ==> rest[k].points <= x[i].points
    requires forall k :: 0 <= k < |rest'| ==> rest'[k].points <= x[i].points
    ensures RowOf(x + rest', full) == RowOf(x + rest, full)
  {
    RowAt(x + rest, full, i);
    RowAt(x + rest', full, i);
    assert (x + rest)[..i] == (x + rest')[..i];
  }

  lemma BestAround(x: seq<Event>, e: Event, y: seq<Event>)
    ensures Best(x + [e] + y) == Max(Max(Best(x), e.points), Best(y))
  {
    BestOfConcat(x + [e], y);
    BestOfConcat(x, [e]);
  }

  lemma FailingAfterBest(x: seq<Event>, e: Event, e': Event, y: seq<Event>, full: nat)
    requires Best(x) > 0 && e.points <= Best(x) && e'.points <= Best(x) && Best(y) <= Best(x)
    ensures RowOf(x + [e'] + y, full) == RowOf(x + [e] + y, full)
  {
    BestIsReached(x);
    BestIsReached(y);
    Associative(x, [e], y);
    Associative(x, [e'], y);
    hide Best, RowOf;
    FailingAfter(x, [e] + y, [e'] + y, full, First(x, Best(x)));
  }

  lemma FailingBeforeBest(x: seq<Event>, e: Event, e': Event, y: seq<Event>, full: nat)
    requires e.points == 0 && e.penalizable && e'.date == e.date
    requires DatesInOrder([e] + y)
    requires Best(y) > Best(x) && e'.points <= Best(y)
    ensures RowAtLeast(RowOf(x + [e'] + y, full), RowOf(x + [e] + y, full))
  {
    BestIsReached(x);
    BestIsReached(y);
    hide Best, RowOf;
    var i := First(y, Best(y));
    assert ([e] + y)[0].date <= ([e] + y)[i + 1].date;
    FailingBefore(x, e, e', y, full, i);
  }

  /** A failed attempt replaced by any other verdict on the same submission can only help. */
  lemma AnyVerdictBeatsFailing(x: seq<Event>, e: Event, e': Event, y: seq<Event>, full: nat)
    requires e.points == 0 && e.penalizable && e'.date == e.date
    requires DatesInOrder([e] + y)
    ensures RowAtLeast(RowOf(x + [e'] + y, full), RowOf(x + [e] + y, full))
  {
    hide Best, RowOf, DatesInOrder;
    RowsAreSound(x + [e] + y, full);
    RowsAreSound(x + [e'] + y, full);
    BestAround(x, e, y);
    BestAround(x, e', y);
    var b := Best(x + [e] + y);
    if e'.points <= b && b > 0 {
      if Best(x) == b {
        FailingAfterBest(x, e, e', y, full);
      } else {
        FailingBeforeBest(x, e, e', y, full);
      }
    }
  }

  /** A failed attempt at the end changes nothing. */
  lemma FailingLastIsNeutral(x: seq<Event>, e: Event, full: nat)
    requires e.points == 0
    ensures RowOf(x + [e], full) == RowOf(x, full)
  {
    BestOfConcat(x, [e]);
    BestIsReached(x);
    BestIsReached(x + [e]);
    var b := Best(x);
    if b > 0 {
      var i, j := First(x, b), First(x + [e], b);
      assert (x + [e])[i] == x[i];
      assert j <= i < |x|;
      assert (x + [e])[j] == x[j];
      assert i == j;
      assert (x + [e])[..j] == x[..j];
    }
  }

  // --------------------------------------------------------------------------- the events of one player in order

  /** As load_attempts returns them: by date, then by id. */
  predicate Ordered(attempts: seq<Attempt>) {
    forall i, j :: 0 <= i < j < |attempts| ==>
      attempts[i].date < attempts[j].date || (attempts[i].date == attempts[j].date && attempts[i].id < attempts[j].id)
  }

  /** The event of an attempt, with the pending ones all solved or all failed. */
  function Imagined(a: Attempt, full: nat, partial: bool, solved: bool): Event {
    if a.Pending() then EventOf(a, if solved then full else 0, !solved)
    else EventOf(a, PointsOf(a, full, partial), a.Penalizable())
  }

  /** The events on one problem, one for each attempt on it, in the order of the attempts. */
  function Line(attempts: seq<Attempt>, p: nat, full: nat, partial: bool, solved: bool): (line: seq<Event>)
  {
    if attempts == [] then []
    else
      (if attempts[0].problem == p then [Imagined(attempts[0], full, partial, solved)] else [])
      + Line(attempts[1..], p, full, partial, solved)
  }

  lemma {:induction false} LineOfConcat(x: seq<Attempt>, y: seq<Attempt>, p: nat, full: nat, partial: bool,
                                        solved: bool)
    ensures Line(x + y, p, full, partial, solved)
            == Line(x, p, full, partial, solved) + Line(y, p, full, partial, solved)
  {
    if x == [] {
      assert x + y == y;
    } else {
      Uncons(x, y);
      LineOfConcat(x[1..], y, p, full, partial, solved);
      LineFront(x, p, full, partial, solved);
      LineFront(x + y, p, full, partial, solved);
      hide *;
      Associative(if x[0].problem == p then [Imagined(x[0], full, partial, solved)] else [],
                  Line(x[1..], p, full, partial, solved), Line(y, p, full, partial, solved));
    }
  }

  lemma LineFront(attempts: seq<Attempt>, p: nat, full: nat, partial: bool, solved: bool)
    requires attempts != []
    ensures Line(attempts, p, full, partial, solved)
            == (if attempts[0].problem == p then [Imagined(attempts[0], full, partial, solved)] else [])
               + Line(attempts[1..], p, full, partial, solved)
  {}

  /** Every event of a line comes from an attempt on its problem. */
  lemma {:induction false} LineComesFrom(attempts: seq<Attempt>, p: nat, full: nat, partial: bool, solved: bool)
    ensures forall e :: e in Line(attempts, p, full, partial, solved) ==>
              exists a :: a in attempts && a.problem == p && e == Imagined(a, full, partial, solved)
  {
    if attempts != [] {
      LineComesFrom(attempts[1..], p, full, partial, solved);
      forall e | e in Line(attempts, p, full, partial, solved)
        ensures exists a :: a in attempts && a.problem == p && e == Imagined(a, full, partial, solved)
      {
        if e in Line(attempts[1..], p, full, partial, solved) {
          var a :| a in attempts[1..] && a.problem == p && e == Imagined(a, full, partial, solved);
          assert a in attempts;
        } else {
          assert attempts[0] in attempts;
        }
      }
    }
  }

  lemma InOrderWithFront(e: Event, rest: seq<Event>)
    requires DatesInOrder(rest)
    requires forall f :: f in rest ==> e.date <= f.date
    ensures DatesInOrder([e] + rest)
  {}

  lemma FrontIsFirst(attempts: seq<Attempt>, p: nat, full: nat, partial: bool, solved: bool, e: Event)
    requires attempts != [] && Ordered(attempts)
    requires e in Line(attempts[1..], p, full, partial, solved)
    ensures attempts[0].date <= e.date
  {
    LineComesFrom(attempts[1..], p, full, partial, solved);
    var a :| a in attempts[1..] && e == Imagined(a, full, partial, solved);
    var k :| 0 <= k < |attempts[1..]| && attempts[1..][k] == a;
    assert a == attempts[k + 1];
  }

  lemma {:induction false} LineIsInOrder(attempts: seq<Attempt>, p: nat, full: nat, partial: bool, solved: bool)
    requires Ordered(attempts)
    ensures DatesInOrder(Line(attempts, p, full, partial, solved))
  {
    if attempts != [] {
      RestPrecedes(attempts, []);
      LineIsInOrder(attempts[1..], p, full, partial, solved);
      LineFront(attempts, p, full, partial, solved);
      var rest, e := Line(attempts[1..], p, full, partial, solved), Imagined(attempts[0], full, partial, solved);
      assert e.date == attempts[0].date;
      hide *;
      forall f | f in rest ensures e.date <= f.date {
        FrontIsFirst(attempts, p, full, partial, solved, f);
      }
      InOrderWithFront(e, rest);
      if attempts[0].problem != p { assert [] + rest == rest; }
    }
  }

  // ------------------------------------------------ the lists scoring.py builds and sorts, against those lines

  lemma {:induction false} BucketOfConcat(x: seq<Event>, y: seq<Event>, p: nat)
    ensures Bucket(x + y, p) == Bucket(x, p) + Bucket(y, p)
  {
    if x == [] {
      assert x + y == y;
    } else {
      Uncons(x, y);
      BucketOfConcat(x[1..], y, p);
      assert x + y != [];
      BucketFront(x, p);
      BucketFront(x + y, p);
      hide *;
      Associative(if x[0].problem == p then [x[0]] else [], Bucket(x[1..], p), Bucket(y, p));
    }
  }

  lemma BucketFront(events: seq<Event>, p: nat)
    requires events != []
    ensures Bucket(events, p) == (if events[0].problem == p then [events[0]] else []) + Bucket(events[1..], p)
  {}

  /** Sorting moves the earliest event to the front wherever it was. */
  lemma {:induction false} SortTakesEarliest(x: seq<Event>, e: Event, y: seq<Event>)
    requires forall i :: 0 <= i < |x| ==> Before(e, x[i])
    requires forall i :: 0 <= i < |y| ==> Before(e, y[i])
    ensures Sort(x + [e] + y) == [e] + Sort(x + y)
  {
    if x == [] {
      assert x + [e] + y == [e] + y && x + y == y;
      var s := Sort(y);
      SortKeepsEvents(y);
      if s != [] { assert s[0] in s; }
    } else {
      assert (x + [e] + y)[1..] == x[1..] + [e] + y;
      assert (x + y)[1..] == x[1..] + y;
      SortTakesEarliest(x[1..], e, y);
      var s := Sort(x[1..] + y);
      assert ([e] + s)[1..] == s;
      assert Insert(x[0], [e] + s) == [e] + Insert(x[0], s);
    }
  }

  lemma {:induction false} InsertKeepsEvents(e: Event, s: seq<Event>)
    ensures forall f :: f in Insert(e, s) <==> f == e || f in s
  {
    if s == [] || !Before(s[0], e) {
    } else {
      InsertKeepsEvents(e, s[1..]);
      assert s == [s[0]] + s[1..];
    }
  }

  lemma {:induction false} SortKeepsEvents(s: seq<Event>)
    ensures forall f :: f in Sort(s) <==> f in s
  {
    if s != [] {
      SortKeepsEvents(s[1..]);
      InsertKeepsEvents(s[0], Sort(s[1..]));
      assert s == [s[0]] + s[1..];
    }
  }

  /** All the judged events, then all the pending ones, then `tail`: the way scoring.py lists them. */
  function Listed(attempts: seq<Attempt>, problems: seq<nat>, partial: bool, solved: bool, tail: seq<Event>): seq<Event>
  {
    JudgedEvents(attempts, problems, partial) + PendingEvents(attempts, problems, solved) + tail
  }

  lemma {:induction false} ListedComesFrom(attempts: seq<Attempt>, problems: seq<nat>, partial: bool, solved: bool)
    ensures forall f :: f in JudgedEvents(attempts, problems, partial) || f in PendingEvents(attempts, problems, solved)
              ==> exists k :: 0 <= k < |attempts| && f.date == attempts[k].date && f.rank == Nth(attempts[k].id)
  {
    if attempts != [] {
      ListedComesFrom(attempts[1..], problems, partial, solved);
      forall f | f in JudgedEvents(attempts, problems, partial) || f in PendingEvents(attempts, problems, solved)
        ensures exists k :: 0 <= k < |attempts| && f.date == attempts[k].date && f.rank == Nth(attempts[k].id)
      {
        if f in JudgedEvents(attempts[1..], problems, partial) || f in PendingEvents(attempts[1..], problems, solved) {
          var k :| 0 <= k < |attempts[1..]| && f.date == attempts[1..][k].date && f.rank == Nth(attempts[1..][k].id);
          assert attempts[k + 1] == attempts[1..][k];
        } else {
          assert f.date == attempts[0].date && f.rank == Nth(attempts[0].id);
        }
      }
    }
  }

  lemma BucketKeeps(es: seq<Event>, p: nat)
    ensures forall f :: f in Bucket(es, p) <==> f in es && f.problem == p
  {
    if es != [] { assert es == [es[0]] + es[1..]; BucketKeeps(es[1..], p); }
  }

  lemma SplitBucket(x: seq<Event>, e: Event, y: seq<Event>, p: nat)
    requires e.problem == p
    ensures Bucket(x + [e] + y, p) == Bucket(x, p) + [e] + Bucket(y, p)
    ensures Bucket(x + y, p) == Bucket(x, p) + Bucket(y, p)
  {
    BucketOfConcat(x + [e], y, p);
    BucketOfConcat(x, [e], p);
    BucketOfConcat(x, y, p);
    assert Bucket([e], p) == [e] + Bucket([], p);
  }

  lemma Regroup<T>(w: seq<T>, x: seq<T>, y: seq<T>, z: seq<T>)
    ensures w + (x + y) + z == w + x + (y + z)
    ensures w + x + y + z == w + (x + y + z)
  {}

  lemma FrontEvents(attempts: seq<Attempt>, problems: seq<nat>, partial: bool, solved: bool, p: nat)
    requires p < |problems| && attempts != [] && attempts[0].problem == p
    ensures var e := [Imagined(attempts[0], problems[p], partial, solved)];
            var judged := JudgedEvents(attempts[1..], problems, partial);
            var pending := PendingEvents(attempts[1..], problems, solved);
            if attempts[0].Pending() then
              JudgedEvents(attempts, problems, partial) == judged &&
              PendingEvents(attempts, problems, solved) == e + pending
            else
              JudgedEvents(attempts, problems, partial) == e + judged &&
              PendingEvents(attempts, problems, solved) == pending
  {}

  /** Where scoring.py lists the event of the attempt at the front: first of all, or after the judged ones. */
  lemma WhereFrontIs(attempts: seq<Attempt>, problems: seq<nat>, partial: bool, solved: bool, tail: seq<Event>, p: nat)
    returns (x: seq<Event>, y: seq<Event>)
    requires p < |problems| && attempts != [] && attempts[0].problem == p
    ensures Listed(attempts[1..], problems, partial, solved, tail) == x + y
    ensures Listed(attempts, problems, partial, solved, tail)
            == x + [Imagined(attempts[0], problems[p], partial, solved)] + y
  {
    hide JudgedEvents, PendingEvents, Imagined;
    FrontEvents(attempts, problems, partial, solved, p);
    var judged := JudgedEvents(attempts[1..], problems, partial);
    var pending := PendingEvents(attempts[1..], problems, solved);
    var e := [Imagined(attempts[0], problems[p], partial, solved)];
    if attempts[0].Pending() {
      x, y := judged, pending + tail;
      Regroup(judged, e, pending, tail);
      Regroup(judged, [], pending, tail);
    } else {
      x, y := [], judged + pending + tail;
      Regroup(e, judged, pending, tail);
    }
  }

  /** The attempt at the front, wherever its event is listed, ends up first. */
  lemma FrontAttempt(attempts: seq<Attempt>, problems: seq<nat>, partial: bool, solved: bool, tail: seq<Event>, p: nat)
    requires p < |problems| && attempts != [] && attempts[0].problem == p
    requires forall f :: f in Bucket(Listed(attempts[1..], problems, partial, solved, tail), p)
               ==> Before(Imagined(attempts[0], problems[p], partial, solved), f)
    ensures Sort(Bucket(Listed(attempts, problems, partial, solved, tail), p))
            == [Imagined(attempts[0], problems[p], partial, solved)]
               + Sort(Bucket(Listed(attempts[1..], problems, partial, solved, tail), p))
  {
    var e := Imagined(attempts[0], problems[p], partial, solved);
    var x, y := WhereFrontIs(attempts, problems, partial, solved, tail, p);
    SplitBucket(x, e, y, p);
    assert forall f :: f in Bucket(x, p) || f in Bucket(y, p) ==> f in Bucket(x + y, p);
    SortTakesEarliest(Bucket(x, p), e, Bucket(y, p));
  }

  lemma FrontIsEarliest(attempts: seq<Attempt>, problems: seq<nat>, partial: bool, solved: bool, tail: seq<Event>,
                        p: nat, e: Event)
    requires attempts != [] && Ordered(attempts)
    requires e.date == attempts[0].date && e.rank == Nth(attempts[0].id)
    requires forall f :: f in tail ==> Before(e, f)
    ensures forall f :: f in Bucket(Listed(attempts[1..], problems, partial, solved, tail), p) ==> Before(e, f)
  {
    var rest := attempts[1..];
    ListedComesFrom(rest, problems, partial, solved);
    BucketKeeps(Listed(rest, problems, partial, solved, tail), p);
    forall f | f in Bucket(Listed(rest, problems, partial, solved, tail), p) ensures Before(e, f) {
      if f !in tail {
        var k :| 0 <= k < |rest| && f.date == rest[k].date && f.rank == Nth(rest[k].id);
        assert rest[k] == attempts[k + 1];
      }
    }
  }

  predicate Precedes(attempts: seq<Attempt>, tail: seq<Event>) {
    forall a, f :: a in attempts && f in tail ==> Before(EventOf(a, 0, true), f)
  }

  lemma FrontSorted(attempts: seq<Attempt>, problems: seq<nat>, partial: bool, solved: bool, tail: seq<Event>, p: nat)
    requires p < |problems| && attempts != [] && attempts[0].problem == p && Ordered(attempts)
    requires Precedes(attempts, tail)
    ensures Sort(Bucket(Listed(attempts, problems, partial, solved, tail), p))
            == [Imagined(attempts[0], problems[p], partial, solved)]
               + Sort(Bucket(Listed(attempts[1..], problems, partial, solved, tail), p))
  {
    var e := Imagined(attempts[0], problems[p], partial, solved);
    assert forall f :: f in tail ==> Before(e, f) by {
      forall f | f in tail ensures Before(e, f) { assert Before(EventOf(attempts[0], 0, true), f); }
    }
    FrontIsEarliest(attempts, problems, partial, solved, tail, p, e);
    FrontAttempt(attempts, problems, partial, solved, tail, p);
  }

  lemma RestPrecedes(attempts: seq<Attempt>, tail: seq<Event>)
    requires attempts != [] && Ordered(attempts) && Precedes(attempts, tail)
    ensures Ordered(attempts[1..]) && Precedes(attempts[1..], tail)
  {}

  /** The bucket of a problem, sorted, is the line of its attempts followed by what comes after all of them. */
  lemma {:induction false} SortedBucketIsLine(attempts: seq<Attempt>, problems: seq<nat>, partial: bool, solved: bool,
                                              tail: seq<Event>, p: nat)
    requires p < |problems| && Ordered(attempts) && Precedes(attempts, tail)
    ensures Sort(Bucket(Listed(attempts, problems, partial, solved, tail), p))
            == Line(attempts, p, problems[p], partial, solved) + Sort(Bucket(tail, p))
  {
    hide *;
    if attempts == [] {
      NothingListed(problems, partial, solved, tail, p);
    } else {
      RestPrecedes(attempts, tail);
      SortedBucketIsLine(attempts[1..], problems, partial, solved, tail, p);
      LineFront(attempts, p, problems[p], partial, solved);
      var rest := Line(attempts[1..], p, problems[p], partial, solved);
      if attempts[0].problem == p {
        FrontSorted(attempts, problems, partial, solved, tail, p);
        Regroup([Imagined(attempts[0], problems[p], partial, solved)], rest, Sort(Bucket(tail, p)), []);
      } else {
        OtherProblem(attempts, problems, partial, solved, tail, p);
        assert [] + rest == rest;
      }
    }
  }

  lemma NothingListed(problems: seq<nat>, partial: bool, solved: bool, tail: seq<Event>, p: nat)
    requires p < |problems|
    ensures Sort(Bucket(Listed([], problems, partial, solved, tail), p))
            == Line([], p, problems[p], partial, solved) + Sort(Bucket(tail, p))
  {
    assert Listed([], problems, partial, solved, tail) == tail;
  }

  lemma OtherProblem(attempts: seq<Attempt>, problems: seq<nat>, partial: bool, solved: bool, tail: seq<Event>, p: nat)
    requires attempts != [] && attempts[0].problem != p
    ensures Bucket(Listed(attempts, problems, partial, solved, tail), p)
            == Bucket(Listed(attempts[1..], problems, partial, solved, tail), p)
  {
    var rest := attempts[1..];
    var judged, pending := JudgedEvents(rest, problems, partial), PendingEvents(rest, problems, solved);
    var judged', pending' := JudgedEvents(attempts, problems, partial), PendingEvents(attempts, problems, solved);
    assert Bucket(judged', p) == Bucket(judged, p) by {
      BucketOfConcat(judged'[..|judged'| - |judged|], judged, p);
      assert judged' == judged'[..|judged'| - |judged|] + judged;
    }
    assert Bucket(pending', p) == Bucket(pending, p) by {
      BucketOfConcat(pending'[..|pending'| - |pending|], pending, p);
      assert pending' == pending'[..|pending'| - |pending|] + pending;
    }
    BucketOfConcat(judged + pending, tail, p);
    BucketOfConcat(judged, pending, p);
    BucketOfConcat(judged' + pending', tail, p);
    BucketOfConcat(judged', pending', p);
  }
}
