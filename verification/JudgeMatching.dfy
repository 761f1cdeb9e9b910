/** Who a submission may be sent to, in terms of the judges and the submissions themselves, over whole runs. */
module JudgeMatching {
  import opened Common
  import opened JudgeQueue
  import opened JudgeRuns
  import opened JudgeFairness

  /** What a judge needs for a submission: its problem, its language, and that it may be sent there. */
  predicate Suits(w: Worker, s: Sub) {
    (s.problem in w.problems || (|s.problem| >= 3 && s.problem[..3] == "ct_")) &&
    s.language in w.executors &&
    match s.judgeId
    case Some(name) => w.name == name
    case None => !w.disabled
  }

  lemma SuitsIsCanJudge(w: Worker, s: Sub)
    ensures w.CanJudge(s) <==> Suits(w, s)
  {
    if "ct_" <= s.problem { assert s.problem[..3] == "ct_"; }
  }

  ghost predicate Waits<J>(st: State<J>, s: Sub) {
    exists p, k :: 0 <= p < |st.fifos| && 0 <= k < |st.fifos[p]| && st.fifos[p][k] == s
  }

  /** The judge suits the submission and is not of a tier above the current one. */
  ghost predicate MayTake<J>(st: State<J>, j: J, s: Sub) {
    j in st.judges && Suits(st.judges[j], s) && st.minTier.Some? && st.judges[j].tier <= st.minTier.value
  }

  // ---------------------------------------------------------------------------------------- offering work

  /** Nothing already running moves, and whatever starts was waiting and is with a judge that may take it. */
  ghost predicate Offered<J>(st: State<J>, st': State<J>) {
    SameTeam(st, st') &&
    (forall id :: id in st.running ==> id in st'.running && st'.running[id] == st.running[id]) &&
    (forall s :: Waits(st', s) ==> Waits(st, s)) &&
    forall id :: id in st'.running && id !in st.running ==> Started(st, st', id)
  }

  ghost predicate Started<J>(st: State<J>, st': State<J>, id: nat)
    requires id in st'.running
  {
    exists s: Sub :: s.id == id && Waits(st, s) && MayTake(st', st'.running[id], s)
  }

  lemma TakeOffers<J>(st: State<J>, j: J, p: nat, k: nat)
    requires Inv(st) && j in st.judges && st.judges[j].working.None?
    requires p < |st.fifos| && k < |st.fifos[p]| && MayTake(st, j, st.fifos[p][k])
    ensures Offered(st, Take(st, j, p, k))
  {
    hide MinTier;
    var st' := Take(st, j, p, k);
    TakeKeepsInv(st, j, p, k);
    DroppingKeepsDistinct(st.fifos, p, k);
    forall s | Waits(st', s) ensures Waits(st, s) {
      var q, l :| 0 <= q < |st'.fifos| && 0 <= l < |st'.fifos[q]| && st'.fifos[q][l] == s;
    }
    assert Waits(st, st.fifos[p][k]);
    assert Started(st, st', st.fifos[p][k].id);
  }

  lemma HandleFreeOffers<J>(st: State<J>, j: J)
    requires Inv(st) && j in st.judges && st.judges[j].working.None?
    ensures Offered(st, HandleFree(st, j))
  {
    hide Inv, Offered, Take;
    NothingOffered(st);
    if st.minTier.Some? && st.judges[j].tier <= st.minTier.value {
      match Pick(st.fifos, st.judges[j], ShouldReserve(st))
      case None =>
      case Some(at) =>
        SuitsIsCanJudge(st.judges[j], st.fifos[at.0][at.1]);
        TakeOffers(st, j, at.0, at.1);
    }
  }

  lemma NothingOffered<J>(st: State<J>)
    ensures Offered(st, st)
  {}

  lemma OfferedTwice<J>(st: State<J>, st': State<J>, last: State<J>)
    requires Offered(st, st') && Offered(st', last)
    ensures Offered(st, last)
  {
    hide Waits, Suits;
    forall id | id in last.running && id !in st.running ensures Started(st, last, id) {
      if id in st'.running {
        var s: Sub :| s.id == id && Waits(st, s) && MayTake(st', st'.running[id], s);
        SameWorker(st'.judges[st'.running[id]], last.judges[st'.running[id]].working, s);
        assert MayTake(last, last.running[id], s);
      }
    }
  }

  /** What a judge is working on does not matter. */
  lemma SameWorker(w: Worker, working: Option<nat>, s: Sub)
    ensures Suits(w.(working := working), s) == Suits(w, s)
  {}

  lemma {:induction false} HandleAllOffers<J>(st: State<J>, order: seq<J>)
    requires Inv(st) && forall j :: j in order ==> j in st.judges
    ensures Offered(st, HandleAll(st, order))
    decreases |order|
  {
    hide Inv, Offered, HandleFree;
    NothingOffered(st);
    if order != [] {
      var j := order[0];
      if st.judges[j].working.None? {
        HandleFreeOffers(st, j);
        HandleFreeKeepsInv(st, j);
        HandleAllOffers(HandleFree(st, j), order[1..]);
        OfferedTwice(st, HandleFree(st, j), HandleAll(st, order));
      } else {
        HandleAllOffers(st, order[1..]);
      }
    }
  }

  lemma UpdateOffers<J>(st: State<J>, order: seq<J>)
    requires |st.fifos| == PRIORITIES && InOnePlace(st) && GoodOrder(st, order)
    ensures Offered(st.(minTier := MinTier(st.judges)), UpdateMinTier(st, order))
  {
    hide HandleAll, MinTier, DistinctIds;
    HandleAllOffers(st.(minTier := MinTier(st.judges)), order);
  }

  // --------------------------------------------------------------------------------------------- every step

  /** Before any work is offered, what waits is as it was and nothing new runs. */
  ghost predicate Prepared<J>(st: State<J>, now: State<J>) {
    now.fifos == st.fifos && forall id :: id in now.running ==> id in st.running && now.running[id] == st.running[id]
  }

  /** Whatever starts was waiting, or is arriving, and goes to a judge that may take it. */
  ghost predicate GoesWell<J>(st: State<J>, e: Step<J>, st': State<J>, id: nat)
    requires id in st'.running
  {
    exists s: Sub :: s.id == id && (Waits(st, s) || (e.Arrive? && e.s == s)) && MayTake(st', st'.running[id], s)
  }

  ghost predicate StepGoesWell<J>(st: State<J>, e: Step<J>, st': State<J>) {
    (forall id :: id in st'.running && id !in st.running ==> GoesWell(st, e, st', id)) &&
    forall id :: id in st.running && id in st'.running ==> st'.running[id] == st.running[id]
  }

  lemma OfferGoesWell<J>(st: State<J>, e: Step<J>, now: State<J>, st': State<J>)
    requires Inv(st) && Prepared(st, now) && Offered(now, st')
    ensures StepGoesWell(st, e, st')
  {
    hide MayTake, DistinctIds, MinTier;
    forall id | id in st'.running && id !in now.running ensures id !in st.running && GoesWell(st, e, st', id) {
      var s: Sub :| s.id == id && Waits(now, s) && MayTake(st', st'.running[id], s);
      assert Waits(st, s);
    }
  }

  lemma ArriveGoesWell<J>(st: State<J>, s: Sub, p: nat, choice: Option<J>)
    requires Inv(st) && Legal(st, Arrive(s, p, choice))
    ensures StepGoesWell(st, Arrive(s, p, choice), Accept(st, s, p, choice))
  {
    hide InOnePlace, MinTier, Waits;
    var st' := Accept(st, s, p, choice);
    if st'.running != st.running {
      var w := st.judges[choice.value];
      assert choice.value in Candidates(st, s) && w.CanJudge(s);
      SuitsIsCanJudge(w, s);
      SameWorker(w, Some(s.id), s);
      hide Suits;
      assert MayTake(st', choice.value, s);
    }
  }

  lemma DoneGoesWell<J>(st: State<J>, j: J, id: nat)
    requires Inv(st) && Legal(st, Done(j, id))
    ensures StepGoesWell(st, Done(j, id), OnJudgeFree(st, j, id))
  {
    hide Offered, StepGoesWell, HandleFree, DistinctIds, MinTier;
    var now := st.(running := st.running - {id}, judges := st.judges[j := st.judges[j].(working := None)]);
    assert InOnePlace(now);
    SameTeamSameTiers(st, now);
    HandleFreeOffers(now, j);
    OfferGoesWell(st, Done(j, id), now, OnJudgeFree(st, j, id));
  }

  lemma JoinGoesWell<J>(st: State<J>, j: J, w: Worker, order: seq<J>)
    requires Inv(st) && Legal(st, Join(j, w, order))
    ensures StepGoesWell(st, Join(j, w, order), Register(st, j, w, order))
  {
    hide Offered, StepGoesWell, HandleFree, DistinctIds, MinTier;
    NewcomerDoesNotRaise(st, j, w);
    var joined := Joined(st, j, w);
    assert InOnePlace(joined);
    UpdateKeepsInv(joined, order);
    var now := UpdateMinTier(joined, order);
    HandleFreeOffers(now, j);
    OfferGoesWell(st, Join(j, w, order), now, Register(st, j, w, order));
  }

  lemma LeaveGoesWell<J>(st: State<J>, j: J, order: seq<J>, only: Option<J>)
    requires Inv(st) && Legal(st, Leave(j, order, only))
    ensures StepGoesWell(st, Leave(j, order, only), Remove(st, j, order, only))
  {
    hide Offered, StepGoesWell, HandleFree, InOnePlace, MinTier, UpdateMinTier;
    var gone := Gone(st, j);
    var now := gone.(minTier := MinTier(gone.judges));
    GoneInOnePlace(st, j);
    UpdateKeepsInv(gone, order);
    UpdateOffers(gone, order);
    var st' := UpdateMinTier(gone, order);
    if only.Some? && st'.judges[only.value].working.None? {
      HandleFreeOffers(st', only.value);
      OfferedTwice(now, st', HandleFree(st', only.value));
    }
    OfferGoesWell(st, Leave(j, order, only), now, Remove(st, j, order, only));
  }

  lemma LearnGoesWell<J>(st: State<J>, j: J, problems: set<string>)
    requires Inv(st) && Legal(st, Learn(j, problems))
    ensures StepGoesWell(st, Learn(j, problems), UpdateProblems(st, j, problems))
  {
    hide Offered, StepGoesWell, HandleFree, Inv;
    var now := st.(judges := st.judges[j := st.judges[j].(problems := problems)]);
    LearnedInv(st, j, problems);
    NothingOffered(now);
    if st.judges[j].working.None? { HandleFreeOffers(now, j); }
    OfferGoesWell(st, Learn(j, problems), now, UpdateProblems(st, j, problems));
  }

  lemma FlagGoesWell<J>(st: State<J>, name: string, disabled: bool, order: seq<J>)
    requires Inv(st) && Legal(st, Flag(name, disabled, order))
    ensures StepGoesWell(st, Flag(name, disabled, order), UpdateDisabled(st, name, disabled, order))
  {
    hide Offered, StepGoesWell, DistinctIds, MinTier, UpdateMinTier;
    var flagged := Flagged(st, name, disabled);
    assert InOnePlace(flagged);
    UpdateOffers(flagged, order);
    OfferGoesWell(st, Flag(name, disabled, order), flagged.(minTier := MinTier(flagged.judges)),
                  UpdateDisabled(st, name, disabled, order));
  }

  /**
   Every step: whatever starts was waiting or is arriving, and goes to a judge of no higher tier that has its problem
   and its language and may be sent it; and whatever goes on running stays with its judge.
   */
  lemma StartsSuitably<J>(st: State<J>, e: Step<J>, st': State<J>)
    requires Inv(st) && Legal(st, e) && Next(st, e, st')
    ensures forall id :: id in st'.running && id !in st.running ==>
              exists s: Sub :: s.id == id && (Waits(st, s) || (e.Arrive? && e.s == s)) &&
                               MayTake(st', st'.running[id], s)
    ensures forall id :: id in st.running && id in st'.running ==> st'.running[id] == st.running[id]
  {
    StepGoes(st, e, st');
    hide Inv, Legal, Next, MayTake, Waits;
    forall id | id in st'.running && id !in st.running
      ensures exists s: Sub :: s.id == id && (Waits(st, s) || (e.Arrive? && e.s == s)) &&
                               MayTake(st', st'.running[id], s)
    {
      assert GoesWell(st, e, st', id);
    }
  }

  lemma StepGoes<J>(st: State<J>, e: Step<J>, st': State<J>)
    requires Inv(st) && Legal(st, e) && Next(st, e, st')
    ensures StepGoesWell(st, e, st')
  {
    hide Inv, Legal, Accept, OnJudgeFree, Register, Remove, UpdateProblems, UpdateDisabled, GoesWell;
    match e
    case Arrive(s, p, choice) => ArriveGoesWell(st, s, p, choice);
    case Done(j, id) => DoneGoesWell(st, j, id);
    case Join(j, w, order) => JoinGoesWell(st, j, w, order);
    case Leave(j, order, only) => LeaveGoesWell(st, j, order, only);
    case Drop(id) =>
    case Learn(j, problems) => LearnGoesWell(st, j, problems);
    case Flag(name, disabled, order) => FlagGoesWell(st, name, disabled, order);
  }

  // ---------------------------------------------------------------------------------------------- whole runs

  /** Whatever runs was started at some step, by a judge that might take it, and has been with it since. */
  lemma {:induction false} RunsSuitably<J>(trace: seq<State<J>>, steps: seq<Step<J>>, m: nat, id: nat)
    returns (i: nat, s: Sub)
    requires IsRun(trace, steps) && m <= |steps| && id in trace[m].running && id !in trace[0].running
    ensures i < m && s.id == id && id !in trace[i].running
    ensures Waits(trace[i], s) || (steps[i].Arrive? && steps[i].s == s)
    ensures MayTake(trace[i + 1], trace[m].running[id], s)
    ensures forall k :: i < k <= m ==> id in trace[k].running && trace[k].running[id] == trace[m].running[id]
  {
    hide Inv, Legal, Next, MayTake, Waits;
    RunKeepsInv(trace, steps, m - 1);
    StartsSuitably(trace[m - 1], steps[m - 1], trace[m]);
    if id in trace[m - 1].running {
      i, s := RunsSuitably(trace, steps, m - 1, id);
    } else {
      i := m - 1;
      s :| s.id == id && (Waits(trace[i], s) || (steps[i].Arrive? && steps[i].s == s)) &&
           MayTake(trace[m], trace[m].running[id], s);
    }
  }

  /** While a contest or default submission waits, no free enabled judge of the current tier suits it. */
  lemma NoneSuitsWaiting<J>(trace: seq<State<J>>, steps: seq<Step<J>>, m: nat, j: J, p: nat, k: nat)
    requires IsRun(trace, steps) && trace[0] == Start() && m <= |steps|
    requires forall i {:trigger steps[i]} :: 0 <= i < m && steps[i].Flag? ==>
      FlagServes(trace[i], steps[i].name, steps[i].disabled)
    requires j in trace[m].judges && trace[m].judges[j].working.None? && !trace[m].judges[j].disabled
    requires trace[m].minTier == Some(trace[m].judges[j].tier)
    requires p < 2 && p < |trace[m].fifos| && k < |trace[m].fifos[p]|
    ensures !Suits(trace[m].judges[j], trace[m].fifos[p][k])
  {
    hide Inv, Legal, Next, FlagServes, Start, Suits, Worker.CanJudge;
    StartKeepsBooks<J>();
    RunLeavesNoneIdle(trace, steps, m);
    assert j in Free(trace[m]) && NothingUrgent(trace[m], j);
    SuitsIsCanJudge(trace[m].judges[j], trace[m].fifos[p][k]);
  }

  // ----------------------------------------------------------------------------- when a judge is offered work

  /** The enabled judges of the current tier. */
  ghost function TierJudges<J>(st: State<J>): set<J> {
    set j | j in st.judges && !st.judges[j].disabled && st.minTier == Some(st.judges[j].tier)
  }

  ghost function Idle<J>(st: State<J>): set<J> {
    set j | j in TierJudges(st) && st.judges[j].working.None?
  }

  /** Rejudges are not for the last free judge of several. */
  ghost predicate Reserved<J>(st: State<J>, p: nat) {
    p >= 2 && |TierJudges(st)| >= 2 && |Idle(st)| <= 1
  }

  lemma ReservedIs<J>(st: State<J>)
    ensures TierJudges(st) == Current(st) && Idle(st) == Free(st)
    ensures forall p: nat :: Reserved(st, p) <==> p >= REJUDGE && ShouldReserve(st)
  {
    assert TierJudges(st) == Current(st);
    assert Idle(st) == Free(st);
  }

  ghost predicate ForIt<J>(st: State<J>, j: J, p: nat, k: nat)
    requires j in st.judges && p < |st.fifos| && k < |st.fifos[p]|
  {
    MayTake(st, j, st.fifos[p][k]) && !Reserved(st, p)
  }

  /** Nothing of a higher priority, nor earlier of the same, is for the judge. */
  ghost predicate FirstForIt<J>(st: State<J>, j: J, p: nat, k: nat)
    requires j in st.judges && p < |st.fifos| && k < |st.fifos[p]|
  {
    ForIt(st, j, p, k) &&
    (forall q: nat, l: nat :: q < p && l < |st.fifos[q]| ==> !ForIt(st, j, q, l)) &&
    (forall l: nat :: l < k ==> !ForIt(st, j, p, l))
  }

  /**
   A free judge offered work takes the first submission, by priority and then by arrival, that it may take and is not
   kept from; with none, nothing changes.
   */
  lemma OfferedTheFirst<J>(st: State<J>, j: J)
    requires Inv(st) && j in st.judges && st.judges[j].working.None?
    ensures HandleFree(st, j).judges[j].working.Some? <==>
              exists p: nat, k: nat :: p < |st.fifos| && k < |st.fifos[p]| && ForIt(st, j, p, k)
    ensures forall p: nat, k: nat :: p < |st.fifos| && k < |st.fifos[p]| && FirstForIt(st, j, p, k) ==>
              HandleFree(st, j).judges[j].working == Some(st.fifos[p][k].id)
    ensures HandleFree(st, j).judges[j].working.None? ==> HandleFree(st, j) == st
  {
    hide Inv, Suits, Worker.CanJudge, Reserved, ShouldReserve;
    ReservedIs(st);
    forall p, k | 0 <= p < |st.fifos| && 0 <= k < |st.fifos[p]|
      ensures st.judges[j].CanJudge(st.fifos[p][k]) == Suits(st.judges[j], st.fifos[p][k])
    {
      SuitsIsCanJudge(st.judges[j], st.fifos[p][k]);
    }
    if st.minTier.Some? && st.judges[j].tier <= st.minTier.value {
      match Pick(st.fifos, st.judges[j], ShouldReserve(st))
      case None =>
      case Some(at) => PickedIsFirst(st, j, at.0, at.1);
    }
  }

  lemma PickedIsFirst<J>(st: State<J>, j: J, p: nat, k: nat)
    requires j in st.judges && st.minTier.Some? && st.judges[j].tier <= st.minTier.value
    requires Pick(st.fifos, st.judges[j], ShouldReserve(st)) == Some((p, k))
    ensures p < |st.fifos| && k < |st.fifos[p]| && FirstForIt(st, j, p, k)
    ensures forall q: nat, l: nat :: q < |st.fifos| && l < |st.fifos[q]| && FirstForIt(st, j, q, l) ==> q == p && l == k
  {
    hide Suits, Worker.CanJudge, Reserved, ShouldReserve;
    ReservedIs(st);
    forall q: nat, l: nat | q < |st.fifos| && l < |st.fifos[q]|
      ensures st.judges[j].CanJudge(st.fifos[q][l]) == Suits(st.judges[j], st.fifos[q][l])
    {
      SuitsIsCanJudge(st.judges[j], st.fifos[q][l]);
    }
    assert ForIt(st, j, p, k);
  }

  // ------------------------------------------------------------------------------- where an arrival is sent

  /** The enabled judges of the current tier that suit a submission, and those of them without work. */
  ghost function Suited<J>(st: State<J>, s: Sub): set<J> {
    set j | j in TierJudges(st) && Suits(st.judges[j], s)
  }

  ghost function SuitedIdle<J>(st: State<J>, s: Sub): set<J> {
    set j | j in Suited(st, s) && st.judges[j].working.None?
  }

  /**
   A new submission goes to the least loaded judge without work that suits it, unless it is a rejudge and that would be
   the last one of several; otherwise it waits.
   */
  lemma ArrivesAtTheLeastLoaded<J>(st: State<J>, s: Sub, p: nat, choice: Option<J>)
    requires Inv(st) && Legal(st, Arrive(s, p, choice)) && !Known(st, s.id)
    ensures var kept := p >= 2 && |Suited(st, s)| >= 2 && |SuitedIdle(st, s)| == 1;
            choice.Some? <==> SuitedIdle(st, s) != {} && !kept
    ensures choice.Some? ==>
              choice.value in SuitedIdle(st, s) &&
              (forall j :: j in SuitedIdle(st, s) ==> st.judges[choice.value].load <= st.judges[j].load) &&
              Accept(st, s, p, choice).running == st.running[s.id := choice.value] &&
              Accept(st, s, p, choice).judges[choice.value].working == Some(s.id)
    ensures choice.None? ==> Accept(st, s, p, choice).fifos[p] == st.fifos[p] + [s]
  {
    hide InOnePlace, MinTier, Suits, Worker.CanJudge;
    SuitedAre(st, s);
    var idle := set j | j in Candidates(st, s) && st.judges[j].working.None?;
    assert idle == SuitedIdle(st, s);
  }

  lemma SuitedAre<J>(st: State<J>, s: Sub)
    ensures Suited(st, s) == Candidates(st, s)
  {
    hide Suits, Worker.CanJudge;
    ReservedIs(st);
    forall j | j in st.judges ensures st.judges[j].CanJudge(s) == Suits(st.judges[j], s) {
      SuitsIsCanJudge(st.judges[j], s);
    }
    assert Suited(st, s) == Candidates(st, s);
  }

  // ------------------------------------------------------------------------------------ the last judge left

  /** When a judge leaves and only one enabled judge of the tier is left, it keeps nothing for others: rejudges too. */
  lemma LastOneTakesAnything<J>(st: State<J>, j: J, order: seq<J>, only: Option<J>, last: J, p: nat, k: nat)
    requires Inv(st) && Legal(st, Leave(j, order, only))
    requires var st' := Remove(st, j, order, only);
             TierJudges(st') == {last} && st'.judges[last].working.None? && p < |st'.fifos| && k < |st'.fifos[p]|
    ensures var st' := Remove(st, j, order, only);
            last in st'.judges && !Suits(st'.judges[last], st'.fifos[p][k])
  {
    hide InOnePlace, Gone, UpdateMinTier, MinTier, Suits, HandleFree, FlagServes;
    GoneInOnePlace(st, j);
    UpdateKeepsInv(Gone(st, j), order);
    var mid, st' := UpdateMinTier(Gone(st, j), order), Remove(st, j, order, only);
    ReservedIs(mid);
    ReservedIs(st');
    if only.Some? && mid.judges[only.value].working.None? {
      HandleFreeKeepsInv(mid, only.value);
      SameTeamSameTiers(mid, st');
    }
    assert last in TierJudges(st');
    assert Current(mid) == {last};
    assert only == Some(last);
    LastIsOffered(mid, last, p, k);
  }

  lemma LastIsOffered<J>(st: State<J>, last: J, p: nat, k: nat)
    requires Inv(st) && TierJudges(st) == {last}
    ensures last in st.judges
    ensures st.judges[last].working.None? && HandleFree(st, last).judges[last].working.None? ==>
              HandleFree(st, last) == st &&
              (p < |st.fifos| && k < |st.fifos[p]| ==> !Suits(st.judges[last], st.fifos[p][k]))
  {
    hide Inv, Suits, HandleFree;
    assert last in TierJudges(st);
    if st.judges[last].working.None? {
      OfferedTheFirst(st, last);
      if p < |st.fifos| && k < |st.fifos[p]| && Suits(st.judges[last], st.fifos[p][k]) {
        assert ForIt(st, last, p, k);
      }
    }
  }

  // ------------------------------------------------------------------------------- who the judges are after a step

  /** Apart from what they work on, the judges after a step. */
  ghost function Team<J>(st: State<J>, e: Step<J>): map<J, Worker>
    requires Legal(st, e)
  {
    match e
    case Join(j, w, _) => st.judges[j := w]
    case Leave(j, _, _) => st.judges - {j}
    case Learn(j, problems) => st.judges[j := st.judges[j].(problems := problems)]
    case Flag(name, disabled, _) =>
      map j | j in st.judges ::
        var w := st.judges[j]; if w.name == name then w.(disabled := disabled) else w
    case _ => st.judges
  }

  ghost predicate SameBut<J>(team: map<J, Worker>, judges: map<J, Worker>) {
    judges.Keys == team.Keys && forall j :: j in team ==> judges[j] == team[j].(working := judges[j].working)
  }

  /** A step changes nothing of a judge but what it works on, unless it is about that: a list of problems or a flag. */
  lemma TeamIs<J>(st: State<J>, e: Step<J>, st': State<J>)
    requires Inv(st) && Legal(st, e) && Next(st, e, st')
    ensures SameBut(Team(st, e), st'.judges)
  {
    hide InOnePlace, MinTier, HandleFree, HandleAll, Available, Pick;
    match e
    case Arrive(s, p, choice) => ArriveTeam(st, s, p, choice);
    case Done(j, id) => DoneTeam(st, j, id);
    case Join(j, w, order) => JoinTeam(st, j, w, order);
    case Leave(j, order, only) => LeaveTeam(st, j, order, only);
    case Drop(id) =>
    case Learn(j, problems) =>
      LearnedInv(st, j, problems);
      if st.judges[j].working.None? {
        HandleFreeKeepsInv(st.(judges := st.judges[j := st.judges[j].(problems := problems)]), j);
      }
    case Flag(name, disabled, order) => FlagTeam(st, name, disabled, order);
  }

  lemma ArriveTeam<J>(st: State<J>, s: Sub, p: nat, choice: Option<J>)
    requires Inv(st) && Legal(st, Arrive(s, p, choice))
    ensures SameBut(st.judges, Accept(st, s, p, choice).judges)
  {
    hide InOnePlace, MinTier, Queued;
    assert choice.Some? ==> choice.value in Candidates(st, s);
  }

  lemma DoneTeam<J>(st: State<J>, j: J, id: nat)
    requires Inv(st) && Legal(st, Done(j, id))
    ensures SameBut(st.judges, OnJudgeFree(st, j, id).judges)
  {
    hide HandleFree, DistinctIds, MinTier;
    var now := st.(running := st.running - {id}, judges := st.judges[j := st.judges[j].(working := None)]);
    assert InOnePlace(now);
    SameTeamSameTiers(st, now);
    HandleFreeKeepsInv(now, j);
  }

  lemma JoinTeam<J>(st: State<J>, j: J, w: Worker, order: seq<J>)
    requires Inv(st) && Legal(st, Join(j, w, order))
    ensures SameBut(st.judges[j := w], Register(st, j, w, order).judges)
  {
    hide HandleFree, HandleAll, DistinctIds, MinTier;
    NewcomerDoesNotRaise(st, j, w);
    assert InOnePlace(Joined(st, j, w));
    UpdateKeepsInv(Joined(st, j, w), order);
    NothingToHandle(Joined(st, j, w).(minTier := MinTier(Joined(st, j, w).judges)));
    HandleFreeKeepsInv(UpdateMinTier(Joined(st, j, w), order), j);
  }

  lemma NothingToHandle<J>(st: State<J>)
    ensures HandleAll(st, []) == st
  {}

  lemma LeaveTeam<J>(st: State<J>, j: J, order: seq<J>, only: Option<J>)
    requires Inv(st) && Legal(st, Leave(j, order, only))
    ensures SameBut(st.judges - {j}, Remove(st, j, order, only).judges)
  {
    hide HandleFree, HandleAll, InOnePlace, MinTier;
    GoneInOnePlace(st, j);
    UpdateKeepsInv(Gone(st, j), order);
    var st' := UpdateMinTier(Gone(st, j), order);
    if only.Some? && st'.judges[only.value].working.None? { HandleFreeKeepsInv(st', only.value); }
  }

  lemma FlagTeam<J>(st: State<J>, name: string, disabled: bool, order: seq<J>)
    requires Inv(st) && Legal(st, Flag(name, disabled, order))
    ensures SameBut(Team(st, Flag(name, disabled, order)), UpdateDisabled(st, name, disabled, order).judges)
  {
    hide HandleFree, HandleAll, DistinctIds, MinTier;
    assert InOnePlace(Flagged(st, name, disabled));
    UpdateKeepsInv(Flagged(st, name, disabled), order);
  }
}
