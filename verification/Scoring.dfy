/**
 Who is winning an arena game, and whether it can be called already (judge/arena/scoring.py).

 Points are whole thousandths, the precision scoring.py rounds to, and dates are whole microseconds, the precision
 of a datetime; its EPSILON comparisons are then exact comparisons.  The problems of a game are numbered from 0,
 as the orders of its rows are, so the dictionary of points is a sequence.
 */
module Scoring {
  import opened Common

  const MINUTE: int := 60_000_000

  // ---------------------------------------------------------------------------------------------- attempts

  datatype Status = QU | P | G | D | CE | IE | AB

  /** Points of test cases, as the judge reports them. */
  type Amount = r: real | r >= 0.0 witness 0.0

  datatype Attempt = Attempt(id: nat, date: int, status: Status, accepted: bool,
                             casePoints: Amount, caseTotal: Amount, problem: nat)
  {
    predicate Pending() {
      status.QU? || status.P? || status.G?
    }

    predicate Counts() {
      !status.CE? && !status.IE?
    }

    predicate Penalizable() {
      !Pending() && Counts()
    }
  }

  /** Python's round(): to the nearest whole number, halves to the even one. */
  function RoundHalfEven(x: real): int {
    var f := x.Floor;
    var rest := x - f as real;
    if rest < 0.5 then f else if rest > 0.5 then f + 1 else if f % 2 == 0 then f else f + 1
  }

  function PointsOf(a: Attempt, full: nat, partial: bool): (points: nat)
    ensures points <= full
    ensures a.Pending() ==> points == 0
  {
    if !a.status.D? || a.caseTotal <= 0.0 then 0
    else if a.accepted && a.casePoints >= a.caseTotal then full
    else if partial then
      var share := a.casePoints / a.caseTotal;
      assert share * full as real >= 0.0;
      Min(full, RoundHalfEven(share * full as real))
    else 0
  }

  // ------------------------------------------------------------------------------------------------ events

  /** What breaks a tie between events of the same date: the id of the submission; a hypothetical one goes last. */
  datatype Rank = Nth(id: nat) | Last

  datatype Event = Event(problem: nat, date: int, rank: Rank, points: nat, penalizable: bool)

  predicate Before(e: Event, f: Event) {
    e.date < f.date || (e.date == f.date && e.rank.Nth? && (f.rank.Last? || e.rank.id < f.rank.id))
  }

  function EventOf(a: Attempt, points: nat, penalizable: bool): Event {
    Event(a.problem, a.date, Nth(a.id), points, penalizable)
  }

  function JudgedEvents(attempts: seq<Attempt>, problems: seq<nat>, partial: bool): seq<Event> {
    if attempts == [] then []
    else
      var a := attempts[0];
      (if !a.Pending() && a.problem < |problems|
       then [EventOf(a, PointsOf(a, problems[a.problem], partial), a.Penalizable())] else [])
      + JudgedEvents(attempts[1..], problems, partial)
  }

  /** The pending submissions, all solved in full or all failed. */
  function PendingEvents(attempts: seq<Attempt>, problems: seq<nat>, solved: bool): seq<Event> {
    if attempts == [] then []
    else
      var a := attempts[0];
      (if a.Pending() && a.problem < |problems|
       then [EventOf(a, if solved then problems[a.problem] else 0, !solved)] else [])
      + PendingEvents(attempts[1..], problems, solved)
  }

  function Used(attempts: seq<Attempt>, problem: nat): nat {
    if attempts == [] then 0
    else (if attempts[0].problem == problem && attempts[0].Counts() then 1 else 0) + Used(attempts[1..], problem)
  }

  /** None: no limit. */
  function AttemptsLeft(attempts: seq<Attempt>, problem: nat, maxAttempts: nat): Option<nat> {
    if maxAttempts == 0 then None else Some(Max(0, maxAttempts - Used(attempts, problem)))
  }

  predicate Done(events: seq<Event>, problem: nat, full: nat) {
    exists i :: 0 <= i < |events| && events[i].problem == problem && events[i].points >= full
  }

  predicate CanStillTry(attempts: seq<Attempt>, problem: nat, maxAttempts: nat) {
    var left := AttemptsLeft(attempts, problem, maxAttempts);
    left.None? || left.value > 0
  }

  /** A full solve at `at` of every problem from `first` on that is not done and has attempts left. */
  function FutureEvents(events: seq<Event>, attempts: seq<Attempt>, problems: seq<nat>, at: int, maxAttempts: nat,
                        first: nat): seq<Event>
    decreases |problems| - first
  {
    if first >= |problems| then []
    else
      (if !Done(events, first, problems[first]) && CanStillTry(attempts, first, maxAttempts)
       then [Event(first, at, Last, problems[first], false)] else [])
      + FutureEvents(events, attempts, problems, at, maxAttempts, first + 1)
  }

  // --------------------------------------------------------------------------------------------- standings

  datatype Row = Row(best: nat, full: bool, attempts: nat, pending: nat, penalized: nat,
                     bestAt: Option<int>, solvedAt: Option<int>)

  const EMPTY_ROW := Row(0, false, 0, 0, 0, None, None)

  datatype Standing = Standing(score: nat, reach: Option<int>, penalized: nat, effective: Option<int>,
                               problems: seq<Row>)

  function Bucket(events: seq<Event>, problem: nat): seq<Event> {
    if events == [] then []
    else (if events[0].problem == problem then [events[0]] else []) + Bucket(events[1..], problem)
  }

  function Insert(e: Event, ordered: seq<Event>): seq<Event> {
    if ordered == [] || !Before(ordered[0], e) then [e] + ordered
    else [ordered[0]] + Insert(e, ordered[1..])
  }

  /** Python's sorted() by (date, id). */
  function Sort(events: seq<Event>): seq<Event> {
    if events == [] then [] else Insert(events[0], Sort(events[1..]))
  }

  function Best(events: seq<Event>): nat {
    if events == [] then 0 else Max(events[0].points, Best(events[1..]))
  }

  /** Where the first event worth at least `points` is; the length if there is none. */
  function First(events: seq<Event>, points: nat): (i: nat)
    ensures i <= |events|
    ensures i < |events| ==> events[i].points >= points
    ensures forall k :: 0 <= k < i ==> events[k].points < points
  {
    if events == [] || events[0].points >= points then 0 else 1 + First(events[1..], points)
  }

  function Failed(events: seq<Event>): nat {
    if events == [] then 0 else (if events[0].penalizable then 1 else 0) + Failed(events[1..])
  }

  /** The row of one problem, from its events in order. */
  function RowOf(ordered: seq<Event>, full: nat): Row {
    var best := Best(ordered);
    var i := First(ordered, best);
    if best == 0 || i == |ordered| then EMPTY_ROW
    else
      Row(best, best >= full, 0, 0, Failed(ordered[..i]), Some(ordered[i].date),
          if best >= full then Some(ordered[i].date) else None)
  }

  function Rows(events: seq<Event>, problems: seq<nat>): (rows: seq<Row>) {
    seq(|problems|, p requires 0 <= p < |problems| => RowOf(Sort(Bucket(events, p)), problems[p]))
  }

  function Total(rows: seq<Row>): nat {
    if rows == [] then 0 else Total(rows[..|rows| - 1]) + rows[|rows| - 1].best
  }

  function TotalPenalized(rows: seq<Row>): nat {
    if rows == [] then 0 else TotalPenalized(rows[..|rows| - 1]) + rows[|rows| - 1].penalized
  }

  function Later(reach: Option<int>, at: Option<int>): Option<int> {
    if reach.None? then at else if at.None? then reach else Some(Max(reach.value, at.value))
  }

  function Reach(rows: seq<Row>): Option<int> {
    if rows == [] then None else Later(Reach(rows[..|rows| - 1]), rows[|rows| - 1].bestAt)
  }

  function FromRows(rows: seq<Row>, penalty: nat, startedAt: int): Standing {
    Standing(Total(rows), Reach(rows), TotalPenalized(rows),
             match Reach(rows)
             case None => None
             case Some(at) => Some(at - startedAt + penalty * MINUTE * TotalPenalized(rows)),
             rows)
  }

  function StandingOf(events: seq<Event>, problems: seq<nat>, penalty: nat, startedAt: int): Standing {
    FromRows(Rows(events, problems), penalty, startedAt)
  }

  function Confirmed(attempts: seq<Attempt>, problems: seq<nat>, partial: bool, penalty: nat, startedAt: int): Standing
  {
    StandingOf(JudgedEvents(attempts, problems, partial), problems, penalty, startedAt)
  }

  function WorstCase(attempts: seq<Attempt>, problems: seq<nat>, partial: bool, penalty: nat, startedAt: int): Standing
  {
    StandingOf(JudgedEvents(attempts, problems, partial) + PendingEvents(attempts, problems, false),
               problems, penalty, startedAt)
  }

  function BestEvents(attempts: seq<Attempt>, problems: seq<nat>, partial: bool,
                      futureAt: Option<int>, maxAttempts: nat): seq<Event>
  {
    var events := JudgedEvents(attempts, problems, partial) + PendingEvents(attempts, problems, true);
    events + if futureAt.None? then [] else FutureEvents(events, attempts, problems, futureAt.value, maxAttempts, 0)
  }

  function BestCase(attempts: seq<Attempt>, problems: seq<nat>, partial: bool, penalty: nat, startedAt: int,
                    futureAt: Option<int>, maxAttempts: nat): Standing
  {
    StandingOf(BestEvents(attempts, problems, partial, futureAt, maxAttempts), problems, penalty, startedAt)
  }

  predicate Beats(first: Standing, second: Standing) {
    if first.score > second.score then true
    else if first.score == second.score && first.score > 0 && first.effective.Some? && second.effective.Some? then
      first.effective.value < second.effective.value
    else false
  }

  // ---------------------------------------------------------------------------------------------- decision

  datatype Rules = Rules(partial: bool, penalty: nat, maxAttempts: nat)

  datatype Reason = AllSolved | Unreachable | MorePoints | Earlier

  datatype Decision = Countdown | Live | Verifying | Finish(winner: Slot, reason: Reason) | Tie

  function Sum(problems: seq<nat>): nat {
    if problems == [] then 0 else Sum(problems[..|problems| - 1]) + problems[|problems| - 1]
  }

  predicate AnyPending(attempts: seq<Attempt>) {
    exists i :: 0 <= i < |attempts| && attempts[i].Pending()
  }

  function ReasonFor(worst: Standing, best: Standing, open: bool, total: nat): Reason {
    if open then (if worst.score >= total then AllSolved else Unreachable)
    else if worst.score > best.score then MorePoints
    else Earlier
  }

  function DecideFrom(worstA: Standing, worstB: Standing, bestA: Standing, bestB: Standing,
                      open: bool, pending: bool, total: nat): Decision
  {
    if Beats(worstA, bestB) then Finish(A, ReasonFor(worstA, bestB, open, total))
    else if Beats(worstB, bestA) then Finish(B, ReasonFor(worstB, bestA, open, total))
    else if open then Live
    else if pending then Verifying
    else Tie
  }

  function Decide(attemptsA: seq<Attempt>, attemptsB: seq<Attempt>, problems: seq<nat>, rules: Rules,
                  startedAt: int, endsAt: int, now: int, closed: bool): Decision
  {
    if now < startedAt then Countdown
    else
      var open := !closed && now < endsAt;
      var futureAt := if open then Some(now) else None;
      var total := Sum(problems);
      var worstA := WorstCase(attemptsA, problems, rules.partial, rules.penalty, startedAt);
      var worstB := WorstCase(attemptsB, problems, rules.partial, rules.penalty, startedAt);
      var bestA := BestCase(attemptsA, problems, rules.partial, rules.penalty, startedAt, futureAt, rules.maxAttempts);
      var bestB := BestCase(attemptsB, problems, rules.partial, rules.penalty, startedAt, futureAt, rules.maxAttempts);
      DecideFrom(worstA, worstB, bestA, bestB, open, AnyPending(attemptsA) || AnyPending(attemptsB), total)
  }

  function Judged(attempts: seq<Attempt>): seq<Attempt> {
    if attempts == [] then []
    else (if attempts[0].Pending() then [] else [attempts[0]]) + Judged(attempts[1..])
  }

  function DecideIgnoringPending(attemptsA: seq<Attempt>, attemptsB: seq<Attempt>, problems: seq<nat>, rules: Rules,
                                 startedAt: int, endsAt: int, now: int): Decision
  {
    Decide(Judged(attemptsA), Judged(attemptsB), problems, rules, startedAt, endsAt, Max(now, endsAt), true)
  }
}
