/** The loops of judge/arena/scoring.py: what they fill in step by step, against the functions that specify it. */
module ScoringLoops {
  import opened Common
  import opened Scoring
  import opened ScoringOrder

  lemma BucketWithNext(events: seq<Event>, i: nat, p: nat)
    requires i < |events|
    ensures Bucket(events[..i + 1], p) == Bucket(events[..i], p) + (if events[i].problem == p then [events[i]] else [])
  {
    assert events[..i + 1] == events[..i] + [events[i]];
    BucketOfConcat(events[..i], [events[i]], p);
    BucketFront([events[i]], p);
  }

  /** Events shared out by problem, in the order they came. */
  method ByProblem(events: seq<Event>, count: nat) returns (buckets: seq<seq<Event>>)
    ensures |buckets| == count && forall p :: 0 <= p < count ==> buckets[p] == Bucket(events, p)
  {
    buckets := seq(count, _ => []);
    for i := 0 to |events|
      invariant |buckets| == count && forall p :: 0 <= p < count ==> buckets[p] == Bucket(events[..i], p)
    {
      var p := events[i].problem;
      forall q | 0 <= q < count
        ensures Bucket(events[..i + 1], q) == Bucket(events[..i], q) + (if p == q then [events[i]] else [])
      {
        BucketWithNext(events, i, q);
      }
      if p < count {
        buckets := buckets[p := buckets[p] + [events[i]]];
      }
    }
    assert events[..|events|] == events;
  }

  /** The row of one problem, filled in from its events in order. */
  method ComputeRow(ordered: seq<Event>, full: nat) returns (row: Row)
    ensures row == RowOf(ordered, full) && SoundRow(row)
  {
    row := EMPTY_ROW;
    var best := Best(ordered);
    BestIsReached(ordered);
    RowsAreSound(ordered, full);
    if best > 0 {
      var index := First(ordered, best);
      row := row.(best := best, bestAt := Some(ordered[index].date), penalized := Failed(ordered[..index]),
                  full := best >= full);
      if row.full {
        row := row.(solvedAt := row.bestAt);
      }
    }
  }

  lemma NoRows()
    ensures Total([]) == TotalPenalized([]) == 0 && Reach([]) == None
  {}

  lemma AddRow(rows: seq<Row>, row: Row)
    ensures Total(rows + [row]) == Total(rows) + row.best
    ensures TotalPenalized(rows + [row]) == TotalPenalized(rows) + row.penalized
    ensures Reach(rows + [row]) == Later(Reach(rows), row.bestAt)
  {
    assert (rows + [row])[..|rows|] == rows;
  }

  method ComputeStanding(events: seq<Event>, problems: seq<nat>, penalty: nat, startedAt: int)
    returns (standing: Standing)
    ensures standing == StandingOf(events, problems, penalty, startedAt)
  {
    hide Sort, Bucket, RowOf, Total, TotalPenalized, Reach;
    var buckets := ByProblem(events, |problems|);
    ghost var all := Rows(events, problems);
    var rows: seq<Row>, score, penalized := [], 0, 0;
    var reach: Option<int> := None;
    NoRows();
    for key := 0 to |problems|
      invariant rows == all[..key]
      invariant score == Total(rows) && penalized == TotalPenalized(rows) && reach == Reach(rows)
    {
      var row := ComputeRow(Sort(buckets[key]), problems[key]);
      if row.best > 0 {
        penalized := penalized + row.penalized;
        reach := if reach.None? then row.bestAt else Some(Max(reach.value, row.bestAt.value));
        score := score + row.best;
      }
      assert all[key] == row;
      AddRow(rows, row);
      rows := rows + [row];
    }
    assert all[..|problems|] == all;
    var effective: Option<int> := None;
    if reach.Some? {
      effective := Some(reach.value - startedAt + penalty * MINUTE * penalized);
    }
    standing := Standing(score, reach, penalized, effective, rows);
  }

  function PendingOn(attempts: seq<Attempt>, p: nat): nat {
    if attempts == [] then 0
    else (if attempts[0].problem == p && attempts[0].Pending() then 1 else 0) + PendingOn(attempts[1..], p)
  }

  lemma {:induction false} CountsWithNext(attempts: seq<Attempt>, a: Attempt, p: nat)
    ensures Used(attempts + [a], p) == Used(attempts, p) + (if a.problem == p && a.Counts() then 1 else 0)
    ensures PendingOn(attempts + [a], p) == PendingOn(attempts, p) + (if a.problem == p && a.Pending() then 1 else 0)
  {
    if attempts == [] {
      assert ([] + [a])[1..] == [];
    } else {
      assert (attempts + [a])[1..] == attempts[1..] + [a];
      CountsWithNext(attempts[1..], a, p);
    }
  }

  /** The attempts used and the verdicts awaited on every problem, added to the rows of a standing. */
  method Annotate(standing: Standing, attempts: seq<Attempt>) returns (annotated: Standing)
    requires forall p :: 0 <= p < |standing.problems| ==>
               standing.problems[p].attempts == 0 && standing.problems[p].pending == 0
    ensures annotated == standing.(problems := annotated.problems) && |annotated.problems| == |standing.problems|
    ensures forall p :: 0 <= p < |standing.problems| ==>
              annotated.problems[p]
              == standing.problems[p].(attempts := Used(attempts, p), pending := PendingOn(attempts, p))
  {
    var rows := standing.problems;
    for i := 0 to |attempts|
      invariant |rows| == |standing.problems|
      invariant forall p :: 0 <= p < |rows| ==>
                  rows[p]
                  == standing.problems[p].(attempts := Used(attempts[..i], p), pending := PendingOn(attempts[..i], p))
    {
      var a := attempts[i];
      assert attempts[..i + 1] == attempts[..i] + [a];
      forall p | 0 <= p < |rows|
        ensures Used(attempts[..i + 1], p) == Used(attempts[..i], p) + (if a.problem == p && a.Counts() then 1 else 0)
        ensures PendingOn(attempts[..i + 1], p)
                == PendingOn(attempts[..i], p) + (if a.problem == p && a.Pending() then 1 else 0)
      {
        CountsWithNext(attempts[..i], a, p);
      }
      if a.problem < |rows| {
        var row := rows[a.problem];
        if a.Counts() {
          row := row.(attempts := row.attempts + 1);
        }
        if a.Pending() {
          row := row.(pending := row.pending + 1);
        }
        rows := rows[a.problem := row];
      }
    }
    assert attempts[..|attempts|] == attempts;
    annotated := standing.(problems := rows);
  }

  lemma FutureOf(events: seq<Event>, attempts: seq<Attempt>, problems: seq<nat>, at: int, maxAttempts: nat, key: nat)
    requires key < |problems|
    ensures FutureEvents(events, attempts, problems, at, maxAttempts, key)
            == (if !Done(events, key, problems[key]) && CanStillTry(attempts, key, maxAttempts)
                then [Event(key, at, Last, problems[key], false)] else [])
               + FutureEvents(events, attempts, problems, at, maxAttempts, key + 1)
  {}

  /** The list of the best case, to which future solves are appended one problem at a time. */
  method ListBestCase(attempts: seq<Attempt>, problems: seq<nat>, partial: bool, futureAt: Option<int>,
                      maxAttempts: nat)
    returns (events: seq<Event>)
    ensures events == BestEvents(attempts, problems, partial, futureAt, maxAttempts)
  {
    ghost var base := JudgedEvents(attempts, problems, partial) + PendingEvents(attempts, problems, true);
    events := JudgedEvents(attempts, problems, partial);
    events := events + PendingEvents(attempts, problems, true);
    if futureAt.Some? {
      ghost var all := FutureEvents(base, attempts, problems, futureAt.value, maxAttempts, 0);
      ghost var added: seq<Event> := [];
      for key := 0 to |problems|
        invariant events == base + added
        invariant added + FutureEvents(base, attempts, problems, futureAt.value, maxAttempts, key) == all
        invariant forall i :: 0 <= i < |added| ==> added[i].problem < key
      {
        FutureOf(base, attempts, problems, futureAt.value, maxAttempts, key);
        ghost var rest := FutureEvents(base, attempts, problems, futureAt.value, maxAttempts, key + 1);
        var done := Done(events, key, problems[key]);
        DoneInBase(base, added, key, problems[key]);
        var left := AttemptsLeft(attempts, key, maxAttempts);
        if !done && (left.None? || left.value > 0) {
          var e := Event(key, futureAt.value, Last, problems[key], false);
          Associative(added, [e], rest);
          Associative(base, added, [e]);
          added := added + [e];
          events := events + [e];
        } else {
          Associative(added, [], rest);
          assert added + [] == added;
        }
      }
      assert added + [] == all;
    } else {
      assert base + [] == base;
    }
  }

  lemma DoneInBase(base: seq<Event>, added: seq<Event>, key: nat, full: nat)
    requires forall i :: 0 <= i < |added| ==> added[i].problem < key
    ensures Done(base + added, key, full) <==> Done(base, key, full)
  {
    if Done(base, key, full) {
      var i :| 0 <= i < |base| && base[i].problem == key && base[i].points >= full;
      assert (base + added)[i] == base[i];
    }
  }
}
