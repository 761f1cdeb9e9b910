/** The two cases a game is called on, problem by problem, and how one of them falls as the game goes on. */
module ScoringRows {
  import opened Common
  import opened Scoring
  import opened ScoringOrder

  /** Some attempt on the problem is, or may turn out, a full solve. */
  predicate Finished(attempts: seq<Attempt>, p: nat, full: nat, partial: bool) {
    exists k :: 0 <= k < |attempts| && attempts[k].problem == p &&
      Imagined(attempts[k], full, partial, true).points >= full
  }

  /** The full solve the best case still allows on a problem. */
  function Future(attempts: seq<Attempt>, p: nat, full: nat, partial: bool, at: Option<int>,
                  maxAttempts: nat): seq<Event>
  {
    if at.None? || Finished(attempts, p, full, partial) || !CanStillTry(attempts, p, maxAttempts) then []
    else [Event(p, at.value, Last, full, false)]
  }

  function WorstRow(attempts: seq<Attempt>, p: nat, full: nat, partial: bool): Row {
    RowOf(Line(attempts, p, full, partial, false), full)
  }

  function BestRow(attempts: seq<Attempt>, p: nat, full: nat, partial: bool, at: Option<int>, maxAttempts: nat): Row {
    RowOf(Line(attempts, p, full, partial, true) + Future(attempts, p, full, partial, at, maxAttempts), full)
  }

  lemma WorstRows(attempts: seq<Attempt>, problems: seq<nat>, partial: bool)
    requires Ordered(attempts)
    ensures Rows(JudgedEvents(attempts, problems, partial) + PendingEvents(attempts, problems, false), problems)
            == seq(|problems|, p requires 0 <= p < |problems| => WorstRow(attempts, p, problems[p], partial))
  {
    var events := JudgedEvents(attempts, problems, partial) + PendingEvents(attempts, problems, false);
    assert events + [] == events;
    forall p | 0 <= p < |problems|
      ensures Rows(events, problems)[p] == WorstRow(attempts, p, problems[p], partial)
    {
      SortedBucketIsLine(attempts, problems, partial, false, [], p);
      assert Line(attempts, p, problems[p], partial, false) + [] == Line(attempts, p, problems[p], partial, false);
    }
  }

  lemma {:induction false} DoneMeansFinished(attempts: seq<Attempt>, problems: seq<nat>, partial: bool, p: nat)
    requires p < |problems|
    ensures Done(JudgedEvents(attempts, problems, partial) + PendingEvents(attempts, problems, true), p, problems[p])
            <==> Finished(attempts, p, problems[p], partial)
  {
    DoneIsMembership(JudgedEvents(attempts, problems, partial) + PendingEvents(attempts, problems, true), p,
                     problems[p]);
    ImaginedAreListed(attempts, problems, partial, p);
    ListedAreImagined(attempts, problems, partial, p);
    if Finished(attempts, p, problems[p], partial) {
      var k :| 0 <= k < |attempts| && attempts[k].problem == p
               && Imagined(attempts[k], problems[p], partial, true).points >= problems[p];
      assert attempts[k] in attempts;
    }
  }

  lemma DoneIsMembership(events: seq<Event>, p: nat, full: nat)
    ensures Done(events, p, full) <==> exists e :: e in events && e.problem == p && e.points >= full
  {
    if e :| e in events && e.problem == p && e.points >= full {
      var i :| 0 <= i < |events| && events[i] == e;
    }
  }

  lemma {:induction false} ImaginedAreListed(attempts: seq<Attempt>, problems: seq<nat>, partial: bool, p: nat)
    requires p < |problems|
    ensures forall a :: a in attempts && a.problem == p ==>
              Imagined(a, problems[p], partial, true)
                in JudgedEvents(attempts, problems, partial) + PendingEvents(attempts, problems, true)
  {
    if attempts != [] {
      ImaginedAreListed(attempts[1..], problems, partial, p);
      assert attempts == [attempts[0]] + attempts[1..];
    }
  }

  lemma {:induction false} ListedAreImagined(attempts: seq<Attempt>, problems: seq<nat>, partial: bool, p: nat)
    requires p < |problems|
    ensures forall e :: e in JudgedEvents(attempts, problems, partial) + PendingEvents(attempts, problems, true)
                        && e.problem == p ==>
              exists k :: 0 <= k < |attempts| && attempts[k].problem == p
                          && e == Imagined(attempts[k], problems[p], partial, true)
  {
    if attempts != [] {
      var rest := attempts[1..];
      ListedAreImagined(rest, problems, partial, p);
      forall e | e in JudgedEvents(attempts, problems, partial) + PendingEvents(attempts, problems, true) &&
        e.problem == p
        ensures exists k :: 0 <= k < |attempts| && attempts[k].problem == p
                            && e == Imagined(attempts[k], problems[p], partial, true)
      {
        if e in JudgedEvents(rest, problems, partial) + PendingEvents(rest, problems, true) {
          var k :| 0 <= k < |rest| && rest[k].problem == p && e == Imagined(rest[k], problems[p], partial, true);
          assert attempts[k + 1] == rest[k];
        } else {
          assert e == Imagined(attempts[0], problems[p], partial, true);
        }
      }
    }
  }

  lemma {:induction false} FutureBucket(events: seq<Event>, attempts: seq<Attempt>, problems: seq<nat>, at: int,
                                        maxAttempts: nat, first: nat, p: nat)
    requires p < |problems|
    ensures Bucket(FutureEvents(events, attempts, problems, at, maxAttempts, first), p)
            == if first <= p && !Done(events, p, problems[p]) && CanStillTry(attempts, p, maxAttempts)
               then [Event(p, at, Last, problems[p], false)] else []
    decreases |problems| - first
  {
    if first < |problems| {
      FutureBucket(events, attempts, problems, at, maxAttempts, first + 1, p);
      var rest := FutureEvents(events, attempts, problems, at, maxAttempts, first + 1);
      var f := Event(first, at, Last, problems[first], false);
      BucketFront([f] + rest, p);
      assert ([f] + rest)[1..] == rest;
      assert [] + rest == rest;
    }
  }

  lemma {:induction false} FutureIsLast(events: seq<Event>, attempts: seq<Attempt>, problems: seq<nat>, at: int,
                                        maxAttempts: nat, first: nat)
    ensures forall f :: f in FutureEvents(events, attempts, problems, at, maxAttempts, first) ==>
              f.date == at && f.rank.Last?
    decreases |problems| - first
  {
    if first < |problems| {
      FutureIsLast(events, attempts, problems, at, maxAttempts, first + 1);
    }
  }

  /** `at`: when a future solve may come, not before any attempt. */
  predicate NoneAfter(attempts: seq<Attempt>, at: Option<int>) {
    at.Some? ==> forall a :: a in attempts ==> a.date <= at.value
  }

  lemma BestRows(attempts: seq<Attempt>, problems: seq<nat>, partial: bool, at: Option<int>, maxAttempts: nat)
    requires Ordered(attempts) && NoneAfter(attempts, at)
    ensures Rows(BestEvents(attempts, problems, partial, at, maxAttempts), problems)
            == seq(|problems|, p requires 0 <= p < |problems| =>
                 BestRow(attempts, p, problems[p], partial, at, maxAttempts))
  {
    var events := JudgedEvents(attempts, problems, partial) + PendingEvents(attempts, problems, true);
    var tail := if at.None? then [] else FutureEvents(events, attempts, problems, at.value, maxAttempts, 0);
    if at.Some? { FutureIsLast(events, attempts, problems, at.value, maxAttempts, 0); }
    forall p | 0 <= p < |problems|
      ensures Rows(events + tail, problems)[p] == BestRow(attempts, p, problems[p], partial, at, maxAttempts)
    {
      SortedBucketIsLine(attempts, problems, partial, true, tail, p);
      DoneMeansFinished(attempts, problems, partial, p);
      if at.Some? { FutureBucket(events, attempts, problems, at.value, maxAttempts, 0, p); }
      assert Sort(Bucket(tail, p)) == Bucket(tail, p);
    }
  }

  lemma WorstOfRows(attempts: seq<Attempt>, problems: seq<nat>, partial: bool, penalty: nat, startedAt: int, p: nat)
    requires Ordered(attempts) && p < |problems|
    ensures var s := WorstCase(attempts, problems, partial, penalty, startedAt);
            s == FromRows(s.problems, penalty, startedAt) && |s.problems| == |problems|
            && s.problems[p] == WorstRow(attempts, p, problems[p], partial)
            && SoundRow(s.problems[p])
  {
    WorstRows(attempts, problems, partial);
    RowsAreSound(Line(attempts, p, problems[p], partial, false), problems[p]);
  }

  lemma BestOfRows(attempts: seq<Attempt>, problems: seq<nat>, partial: bool, penalty: nat, startedAt: int,
                   at: Option<int>, maxAttempts: nat, p: nat)
    requires Ordered(attempts) && NoneAfter(attempts, at) && p < |problems|
    ensures var s := BestCase(attempts, problems, partial, penalty, startedAt, at, maxAttempts);
            s == FromRows(s.problems, penalty, startedAt) && |s.problems| == |problems|
            && s.problems[p] == BestRow(attempts, p, problems[p], partial, at, maxAttempts)
            && SoundRow(s.problems[p])
  {
    BestRows(attempts, problems, partial, at, maxAttempts);
    RowsAreSound(Line(attempts, p, problems[p], partial, true)
                 + Future(attempts, p, problems[p], partial, at, maxAttempts),
                 problems[p]);
  }

  /**
   `es` against `fs`, which agree except where `es` has a full solve: with a full solve `f` allowed after `es` or
   none, and `g` after `fs`, the row of `es` is at least as good.
   */
  lemma FullSolvesDominate(es: seq<Event>, f: seq<Event>, fs: seq<Event>, g: seq<Event>, full: nat)
    requires full > 0 && |es| == |fs|
    requires forall k :: 0 <= k < |es| ==> es[k].date == fs[k].date && (es[k] == fs[k] || es[k].points == full)
    requires forall k :: 0 <= k < |es| ==> es[k].points <= full && fs[k].points <= full
    requires forall k :: 0 <= k < |g| ==> g[k].points <= full
    requires DatesInOrder(fs + g)
    requires |f| <= 1 && (f != [] ==> f[0].points == full && forall k :: 0 <= k < |g| ==> f[0].date <= g[k].date)
    requires f == [] && (forall k :: 0 <= k < |es| ==> es[k].points < full) ==> g == []
    ensures RowAtLeast(RowOf(es + f, full), RowOf(fs + g, full))
  {
    hide RowOf;
    var i := First(es, full);
    if i < |es| {
      assert es + f == es[..i] + [es[i]] + (es[i + 1..] + f);
      assert es[..i] == fs[..i];
      assert fs + g == es[..i] + (fs[i..] + g);
      var z := fs[i..] + g;
      forall k | 0 <= k < |z| ensures z[k].points <= full && z[k].date >= es[i].date {
        assert z[k] == (fs + g)[i + k];
        assert (fs + g)[i] == fs[i];
      }
      FullSolveDominates(es[..i], es[i], es[i + 1..] + f, z, full);
    } else {
      assert es == fs;
      if f != [] {
        assert es + f == es + [f[0]] + [];
        FullSolveDominates(es, f[0], [], g, full);
      } else {
        assert es + f == fs + g;
        RowsAreSound(es + f, full);
      }
    }
  }

  // ------------------------------------------------------------------------- how the rows of a player change

  lemma SameRow(r: Row)
    requires SoundRow(r)
    ensures RowAtLeast(r, r)
  {}

  /** The line before and after news about attempt `k`. */
  lemma NewsInLine(at: seq<Attempt>, k: nat, news: Attempt, p: nat, full: nat, partial: bool, solved: bool)
    returns (x: seq<Event>, y: seq<Event>)
    requires k < |at| && news.problem == at[k].problem
    ensures Line(at, p, full, partial, solved)
            == x + (if news.problem == p then [Imagined(at[k], full, partial, solved)] else []) + y
    ensures Line(at[k := news], p, full, partial, solved)
            == x + (if news.problem == p then [Imagined(news, full, partial, solved)] else []) + y
  {
    x, y := Line(at[..k], p, full, partial, solved), Line(at[k + 1..], p, full, partial, solved);
    assert at == at[..k] + [at[k]] + at[k + 1..];
    assert at[k := news] == at[..k] + [news] + at[k + 1..];
    LineAround(at[..k], at[k], at[k + 1..], p, full, partial, solved);
    LineAround(at[..k], news, at[k + 1..], p, full, partial, solved);
  }

  lemma LineAround(x: seq<Attempt>, a: Attempt, y: seq<Attempt>, p: nat, full: nat, partial: bool, solved: bool)
    ensures Line(x + [a] + y, p, full, partial, solved)
            == Line(x, p, full, partial, solved)
               + (if a.problem == p then [Imagined(a, full, partial, solved)] else [])
               + Line(y, p, full, partial, solved)
  {
    LineOfConcat(x + [a], y, p, full, partial, solved);
    LineOfConcat(x, [a], p, full, partial, solved);
    LineFront([a], p, full, partial, solved);
    assert Line([], p, full, partial, solved) == [];
  }

  /** Whatever the news about a pending submission, the worst case does not get worse. */
  lemma NewsRaiseWorst(at: seq<Attempt>, k: nat, news: Attempt, p: nat, full: nat, partial: bool)
    requires Ordered(at) && k < |at| && at[k].Pending()
    requires news.date == at[k].date && news.problem == at[k].problem
    ensures RowAtLeast(WorstRow(at[k := news], p, full, partial), WorstRow(at, p, full, partial))
  {
    var x, y := NewsInLine(at, k, news, p, full, partial, false);
    LineIsInOrder(at, p, full, partial, false);
    if news.problem == p {
      var e, e' := Imagined(at[k], full, partial, false), Imagined(news, full, partial, false);
      assert DatesInOrder([e] + y) by {
        forall i, j | 0 <= i <= j < |[e] + y| ensures ([e] + y)[i].date <= ([e] + y)[j].date {
          assert ([e] + y)[i] == (x + [e] + y)[|x| + i] && ([e] + y)[j] == (x + [e] + y)[|x| + j];
        }
      }
      AnyVerdictBeatsFailing(x, e, e', y, full);
    } else {
      RowsAreSound(Line(at, p, full, partial, false), full);
      SameRow(WorstRow(at, p, full, partial));
    }
  }

  /** A new submission, counted as failed, changes no worst case. */
  lemma SentKeepsWorst(at: seq<Attempt>, sent: Attempt, p: nat, full: nat, partial: bool)
    requires sent.Pending()
    ensures WorstRow(at + [sent], p, full, partial) == WorstRow(at, p, full, partial)
  {
    SentInLine(at, sent, p, full, partial, false);
    var x := Line(at, p, full, partial, false);
    if sent.problem == p {
      FailingLastIsNeutral(x, Imagined(sent, full, partial, false), full);
    } else {
      assert x + [] == x;
    }
  }

  lemma {:induction false} FinishedInLine(at: seq<Attempt>, p: nat, full: nat, partial: bool)
    ensures var line := Line(at, p, full, partial, true);
            Finished(at, p, full, partial) <==> exists i :: 0 <= i < |line| && line[i].points >= full
  {
    var line := Line(at, p, full, partial, true);
    LineComesFrom(at, p, full, partial, true);
    LineHolds(at, p, full, partial, true);
    if Finished(at, p, full, partial) {
      var k :| 0 <= k < |at| && at[k].problem == p && Imagined(at[k], full, partial, true).points >= full;
      var i :| 0 <= i < |line| && line[i] == Imagined(at[k], full, partial, true);
    }
    if i :| 0 <= i < |line| && line[i].points >= full {
      assert line[i] in line;
      var a :| a in at && a.problem == p && line[i] == Imagined(a, full, partial, true);
      var k :| 0 <= k < |at| && at[k] == a;
    }
  }

  lemma {:induction false} LineHolds(at: seq<Attempt>, p: nat, full: nat, partial: bool, solved: bool)
    ensures forall a :: a in at && a.problem == p ==>
              Imagined(a, full, partial, solved) in Line(at, p, full, partial, solved)
  {
    if at != [] {
      LineHolds(at[1..], p, full, partial, solved);
      assert at == [at[0]] + at[1..];
    }
  }

  lemma LineIsBounded(at: seq<Attempt>, p: nat, full: nat, partial: bool, solved: bool)
    ensures forall e :: e in Line(at, p, full, partial, solved) ==> e.points <= full
  {
    LineComesFrom(at, p, full, partial, solved);
  }

  /** The line, followed by a full solve not before any attempt, is in order. */
  lemma LineAndFuture(at: seq<Attempt>, p: nat, full: nat, partial: bool, g: seq<Event>, now: int)
    requires Ordered(at) && (forall a :: a in at ==> a.date <= now)
    requires |g| <= 1 && (g != [] ==> g[0].date >= now)
    ensures DatesInOrder(Line(at, p, full, partial, true) + g)
  {
    LineIsInOrder(at, p, full, partial, true);
    LineComesFrom(at, p, full, partial, true);
    var line := Line(at, p, full, partial, true);
    forall e | e in line ensures e.date <= now {
      var a :| a in at && e == Imagined(a, full, partial, true);
    }
  }

  lemma {:induction false} UsedWithNews(at: seq<Attempt>, k: nat, news: Attempt, p: nat)
    requires k < |at| && news.problem == at[k].problem && news.problem != p
    ensures Used(at[k := news], p) == Used(at, p)
  {
    if k > 0 {
      assert at[k := news][1..] == at[1..][k - 1 := news];
      UsedWithNews(at[1..], k - 1, news, p);
    } else {
      assert at[k := news][1..] == at[1..];
    }
  }

  lemma {:induction false} UsedWithSent(at: seq<Attempt>, sent: Attempt, p: nat)
    requires sent.problem != p
    ensures Used(at + [sent], p) == Used(at, p)
  {
    if at != [] {
      assert (at + [sent])[1..] == at[1..] + [sent];
      UsedWithSent(at[1..], sent, p);
    } else {
      assert ([] + [sent])[1..] == [];
    }
  }

  lemma FinishedWithNews(at: seq<Attempt>, k: nat, news: Attempt, p: nat, full: nat, partial: bool)
    requires k < |at| && news.problem == at[k].problem && news.problem != p
    ensures Finished(at[k := news], p, full, partial) == Finished(at, p, full, partial)
  {
    if Finished(at, p, full, partial) {
      var i :| 0 <= i < |at| && at[i].problem == p && Imagined(at[i], full, partial, true).points >= full;
      assert at[k := news][i] == at[i];
    }
  }

  lemma FinishedWithSent(at: seq<Attempt>, sent: Attempt, p: nat, full: nat, partial: bool)
    requires sent.problem != p
    ensures Finished(at + [sent], p, full, partial) == Finished(at, p, full, partial)
  {
    if Finished(at, p, full, partial) {
      var i :| 0 <= i < |at| && at[i].problem == p && Imagined(at[i], full, partial, true).points >= full;
      assert (at + [sent])[i] == at[i];
    }
  }

  lemma OtherProblemKeepsBest(at: seq<Attempt>, at': seq<Attempt>, p: nat, full: nat, partial: bool, f: Option<int>,
                              maxAttempts: nat)
    requires Line(at, p, full, partial, true) == Line(at', p, full, partial, true)
    requires Used(at, p) == Used(at', p) && Finished(at, p, full, partial) == Finished(at', p, full, partial)
    ensures RowAtLeast(BestRow(at, p, full, partial, f, maxAttempts), BestRow(at', p, full, partial, f, maxAttempts))
    ensures RowAtLeast(BestRow(at', p, full, partial, f, maxAttempts), BestRow(at, p, full, partial, f, maxAttempts))
  {
    RowsAreSound(Line(at, p, full, partial, true) + Future(at, p, full, partial, f, maxAttempts), full);
    SameRow(BestRow(at, p, full, partial, f, maxAttempts));
  }

  lemma FinishedMeansNoFuture(at: seq<Attempt>, p: nat, full: nat, partial: bool, f: Option<int>, maxAttempts: nat)
    requires Finished(at, p, full, partial)
    ensures BestRow(at, p, full, partial, f, maxAttempts) == RowOf(Line(at, p, full, partial, true) + [], full)
  {}

  lemma NewsOnIt(at: seq<Attempt>, k: nat, news: Attempt, full: nat, partial: bool, f: Option<int>,
                 now: int, maxAttempts: nat)
    requires k < |at| && Ordered(at) && Ordered(at[k := news]) && full > 0 && at[k].Pending()
    requires news.date == at[k].date && news.problem == at[k].problem
    requires (forall a :: a in at ==> a.date <= now) && (f.Some? ==> f.value == now)
    ensures RowAtLeast(BestRow(at, news.problem, full, partial, f, maxAttempts),
                       BestRow(at[k := news], news.problem, full, partial, f, maxAttempts))
    ensures Imagined(news, full, partial, true).points == full ==>
              RowAtLeast(BestRow(at[k := news], news.problem, full, partial, f, maxAttempts),
                         BestRow(at, news.problem, full, partial, f, maxAttempts))
  {
    var p, at' := news.problem, at[k := news];
    var es, fs := Line(at, p, full, partial, true), Line(at', p, full, partial, true);
    var g := Future(at', p, full, partial, f, maxAttempts);
    var x, y := NewsInLine(at, k, news, p, full, partial, true);
    var e, e' := Imagined(at[k], full, partial, true), Imagined(news, full, partial, true);
    FinishedMeansNoFuture(at, p, full, partial, f, maxAttempts);
    LineIsBounded(at, p, full, partial, true);
    LineIsBounded(at', p, full, partial, true);
    assert forall a :: a in at' ==> a.date <= now by {
      forall a | a in at' ensures a.date <= now { if a == news { assert at[k] in at; } }
    }
    LineAndFuture(at', p, full, partial, g, now);
    LineAndFuture(at, p, full, partial, [], now);
    assert e'.points == full ==> Finished(at', p, full, partial) by { assert at'[k] == news; }
    hide Line, Future, RowOf, Finished, Imagined, Ordered, RowAtLeast, DatesInOrder;
    FullSolveAt(x, e, e', y, g, full);
    if e'.points == full {
      FinishedMeansNoFuture(at', p, full, partial, f, maxAttempts);
      FullSolveAt(x, e', e, y, [], full);
    }
  }

  /** A full solve turned into anything else, whatever is still allowed afterwards. */
  lemma FullSolveAt(x: seq<Event>, e: Event, e': Event, y: seq<Event>, g: seq<Event>, full: nat)
    requires full > 0 && e.points == full && e.date == e'.date
    requires forall c :: c in x + [e] + y || c in x + [e'] + y || c in g ==> c.points <= full
    requires DatesInOrder(x + [e'] + y + g)
    ensures RowAtLeast(RowOf(x + [e] + y + [], full), RowOf(x + [e'] + y + g, full))
  {
    hide RowOf, RowAtLeast;
    var es, fs := x + [e] + y, x + [e'] + y;
    assert es[|x|] == e && fs[|x|] == e';
    assert forall i :: 0 <= i < |es| && i != |x| ==> es[i] == fs[i];
    FullSolvesDominate(es, [], fs, g, full);
  }

  /** Whatever the news about a pending submission, the best case does not get better; a full solve keeps it. */
  lemma NewsLowerBest(at: seq<Attempt>, k: nat, news: Attempt, p: nat, full: nat, partial: bool, f: Option<int>,
                      now: int, maxAttempts: nat)
    requires k < |at| && Ordered(at) && Ordered(at[k := news]) && full > 0 && at[k].Pending()
    requires news.date == at[k].date && news.problem == at[k].problem
    requires (forall a :: a in at ==> a.date <= now) && (f.Some? ==> f.value == now)
    ensures RowAtLeast(BestRow(at, p, full, partial, f, maxAttempts),
                       BestRow(at[k := news], p, full, partial, f, maxAttempts))
    ensures Imagined(news, full, partial, true).points == full ==>
              RowAtLeast(BestRow(at[k := news], p, full, partial, f, maxAttempts),
                         BestRow(at, p, full, partial, f, maxAttempts))
  {
    if news.problem != p {
      var x, y := NewsInLine(at, k, news, p, full, partial, true);
      UsedWithNews(at, k, news, p);
      FinishedWithNews(at, k, news, p, full, partial);
      OtherProblemKeepsBest(at, at[k := news], p, full, partial, f, maxAttempts);
    } else {
      NewsOnIt(at, k, news, full, partial, f, now, maxAttempts);
    }
  }

  /** The line after a new submission. */
  lemma SentInLine(at: seq<Attempt>, sent: Attempt, p: nat, full: nat, partial: bool, solved: bool)
    ensures Line(at + [sent], p, full, partial, solved)
            == Line(at, p, full, partial, solved)
               + (if sent.problem == p then [Imagined(sent, full, partial, solved)] else [])
  {
    LineOfConcat(at, [sent], p, full, partial, solved);
    LineFront([sent], p, full, partial, solved);
    assert Line([], p, full, partial, solved) == [];
  }

  lemma SentOnIt(at: seq<Attempt>, sent: Attempt, full: nat, partial: bool, now: int, maxAttempts: nat)
    requires Ordered(at) && full > 0 && sent.Pending() && sent.date == now
    requires forall a :: a in at ==> a.date <= now
    requires CanStillTry(at, sent.problem, maxAttempts)
    ensures RowAtLeast(BestRow(at, sent.problem, full, partial, Some(now), maxAttempts),
                       BestRow(at + [sent], sent.problem, full, partial, Some(now), maxAttempts))
    ensures RowAtLeast(BestRow(at + [sent], sent.problem, full, partial, Some(now), maxAttempts),
                       BestRow(at, sent.problem, full, partial, Some(now), maxAttempts))
  {
    hide Line, RowOf, RowAtLeast, DatesInOrder, Ordered;
    var p := sent.problem;
    var es := Line(at, p, full, partial, true);
    var f, s := Future(at, p, full, partial, Some(now), maxAttempts), [Imagined(sent, full, partial, true)];
    SentInLine(at, sent, p, full, partial, true);
    assert Finished(at + [sent], p, full, partial) by { assert (at + [sent])[|at|] == sent; }
    FinishedMeansNoFuture(at + [sent], p, full, partial, Some(now), maxAttempts);
    FinishedInLine(at, p, full, partial);
    LineIsBounded(at, p, full, partial, true);
    LineAndFuture(at, p, full, partial, s, now);
    LineAndFuture(at, p, full, partial, f, now);
    assert es + s + [] == es + s;
    FullSolvesDominate(es, f, es, s, full);
    FullSolvesDominate(es, s, es, f, full);
  }

  /** A new submission, while attempts are left, keeps the best case as it is. */
  lemma SentKeepsBest(at: seq<Attempt>, sent: Attempt, p: nat, full: nat, partial: bool, now: int, maxAttempts: nat)
    requires Ordered(at) && full > 0 && sent.Pending() && sent.date == now
    requires forall a :: a in at ==> a.date <= now
    requires CanStillTry(at, sent.problem, maxAttempts)
    ensures RowAtLeast(BestRow(at, p, full, partial, Some(now), maxAttempts),
                       BestRow(at + [sent], p, full, partial, Some(now), maxAttempts))
    ensures RowAtLeast(BestRow(at + [sent], p, full, partial, Some(now), maxAttempts),
                       BestRow(at, p, full, partial, Some(now), maxAttempts))
  {
    if sent.problem != p {
      SentInLine(at, sent, p, full, partial, true);
      UsedWithSent(at, sent, p);
      FinishedWithSent(at, sent, p, full, partial);
      assert Line(at, p, full, partial, true) + [] == Line(at, p, full, partial, true);
      OtherProblemKeepsBest(at, at + [sent], p, full, partial, Some(now), maxAttempts);
    } else {
      SentOnIt(at, sent, full, partial, now, maxAttempts);
    }
  }

  /** A later chance, or none, cannot make the best case better. */
  lemma TimeLowersBest(at: seq<Attempt>, p: nat, full: nat, partial: bool, f: Option<int>, f': Option<int>,
                       maxAttempts: nat)
    requires Ordered(at) && full > 0 && NoneAfter(at, f)
    requires f'.Some? ==> f.Some? && f.value <= f'.value
    ensures RowAtLeast(BestRow(at, p, full, partial, f, maxAttempts), BestRow(at, p, full, partial, f', maxAttempts))
  {
    var es := Line(at, p, full, partial, true);
    var u, v := Future(at, p, full, partial, f, maxAttempts), Future(at, p, full, partial, f', maxAttempts);
    LineIsBounded(at, p, full, partial, true);
    if f.Some? {
      LineAndFuture(at, p, full, partial, v, f.value);
    } else {
      LineIsInOrder(at, p, full, partial, true);
      assert es + v == es;
    }
    FullSolvesDominate(es, u, es, v, full);
  }
}
