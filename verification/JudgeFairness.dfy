/** Where submissions go, who is never kept waiting, and who is never overtaken. */
module JudgeFairness {
  import opened Common
  import opened JudgeQueue
  import opened JudgeRuns

  // ------------------------------------------------------------------------------ nothing is lost or invented

  /** Accepted and not finished: queued or on a judge. */
  ghost predicate Known<J>(st: State<J>, id: nat) {
    id in st.running || Queued(st, id)
  }

  lemma QueuedWithout<J>(st: State<J>, st': State<J>, p: nat, k: nat, id: nat)
    requires DistinctIds(st.fifos) && p < |st.fifos| && k < |st.fifos[p]|
    requires st'.fifos == st.fifos[p := Without(st.fifos[p], k)]
    ensures Queued(st', id) <==> Queued(st, id) && id != st.fifos[p][k].id
  {
    DroppingKeepsDistinct(st.fifos, p, k);
    if Queued(st', id) {
      var q, l :| 0 <= q < |st'.fifos| && 0 <= l < |st'.fifos[q]| && st'.fifos[q][l].id == id;
      var m :| 0 <= m < |st.fifos[q]| && st.fifos[q][m] == st'.fifos[q][l];
    }
    if Queued(st, id) && id != st.fifos[p][k].id {
      StillQueued(st, st', p, k, id);
    }
  }

  lemma StillQueued<J>(st: State<J>, st': State<J>, p: nat, k: nat, id: nat)
    requires p < |st.fifos| && k < |st.fifos[p]| && Queued(st, id) && id != st.fifos[p][k].id
    requires st'.fifos == st.fifos[p := Without(st.fifos[p], k)]
    ensures Queued(st', id)
  {
    WithoutAt(st.fifos[p], k);
    var q, l :| 0 <= q < |st.fifos| && 0 <= l < |st.fifos[q]| && st.fifos[q][l].id == id;
    var m := if q == p && l > k then l - 1 else l;
    assert st'.fifos[q][m].id == id;
  }

  /** A judge becoming free moves at most one submission from the queue to that judge. */
  lemma HandleFreeMoves<J>(st: State<J>, j: J, id: nat)
    requires Inv(st) && j in st.judges && st.judges[j].working.None?
    ensures Known(HandleFree(st, j), id) <==> Known(st, id)
    ensures id in st.running ==> id in HandleFree(st, j).running
  {
    if st.minTier.Some? && st.judges[j].tier <= st.minTier.value {
      match Pick(st.fifos, st.judges[j], ShouldReserve(st))
      case None =>
      case Some(at) =>
        var st' := Take(st, j, at.0, at.1);
        QueuedWithout(st, st', at.0, at.1, id);
        assert Queued(st, st.fifos[at.0][at.1].id);
    }
  }

  lemma {:induction false} HandleAllMoves<J>(st: State<J>, order: seq<J>, id: nat)
    requires Inv(st) && forall j :: j in order ==> j in st.judges
    ensures Known(HandleAll(st, order), id) <==> Known(st, id)
    decreases |order|
  {
    if order != [] {
      var j := order[0];
      if st.judges[j].working.None? {
        HandleFreeMoves(st, j, id);
        HandleFreeKeepsInv(st, j);
        HandleAllMoves(HandleFree(st, j), order[1..], id);
      } else {
        HandleAllMoves(st, order[1..], id);
      }
    }
  }

  /** Whether a step finishes submission `id`: judged, aborted while queued, or lost with the judge that had it. */
  ghost predicate Ends<J>(st: State<J>, e: Step<J>, id: nat) {
    match e
    case Done(j, i) => i == id
    case Drop(i) => i == id && i !in st.running
    case Leave(j, _, _) => j in st.judges && st.judges[j].working == Some(id)
    case _ => false
  }

  ghost predicate Starts<J>(e: Step<J>, id: nat) {
    e.Arrive? && e.s.id == id
  }

  lemma UpdateMoves<J>(st: State<J>, order: seq<J>, id: nat)
    requires |st.fifos| == PRIORITIES && InOnePlace(st) && GoodOrder(st, order)
    ensures Known(UpdateMinTier(st, order), id) <==> Known(st, id)
  {
    HandleAllMoves(st.(minTier := MinTier(st.judges)), order, id);
  }

  lemma ArriveTracks<J>(st: State<J>, s: Sub, p: nat, choice: Option<J>, id: nat)
    requires Inv(st) && Legal(st, Arrive(s, p, choice))
    ensures Known(Accept(st, s, p, choice), id) <==> Known(st, id) || s.id == id
    ensures Known(st, s.id) ==> Accept(st, s, p, choice) == st
  {
    var st' := Accept(st, s, p, choice);
    if !Known(st, s.id) && choice.None? {
      QueuedWithNext(st, st', s, p, id);
    } else {
      assert Queued(st', id) == Queued(st, id) by { assert st'.fifos == st.fifos; }
    }
  }

  lemma QueuedWithNext<J>(st: State<J>, st': State<J>, s: Sub, p: nat, id: nat)
    requires p < |st.fifos| && st'.fifos == st.fifos[p := st.fifos[p] + [s]]
    ensures Queued(st', id) <==> Queued(st, id) || s.id == id
  {
    assert st'.fifos[p][|st.fifos[p]|] == s;
    if Queued(st, id) {
      var q, l :| 0 <= q < |st.fifos| && 0 <= l < |st.fifos[q]| && st.fifos[q][l].id == id;
      assert st'.fifos[q][l].id == id;
    }
    if Queued(st', id) && s.id != id {
      var q, l :| 0 <= q < |st'.fifos| && 0 <= l < |st'.fifos[q]| && st'.fifos[q][l].id == id;
      assert st.fifos[q][l].id == id;
    }
  }

  lemma GoneKnows<J>(st: State<J>, j: J, id: nat)
    requires Inv(st) && j in st.judges
    ensures Known(Gone(st, j), id) <==> Known(st, id) && st.judges[j].working != Some(id)
  {
    hide DistinctIds, MinTier, Tiers;
    assert Queued(Gone(st, j), id) == Queued(st, id);
  }

  lemma LeaveTracks<J>(st: State<J>, j: J, order: seq<J>, only: Option<J>, id: nat)
    requires Inv(st) && Legal(st, Leave(j, order, only))
    ensures j in st.judges
    ensures Known(Remove(st, j, order, only), id) <==> Known(st, id) && st.judges[j].working != Some(id)
  {
    hide HandleFree, HandleAll, InOnePlace, Gone, Known, MinTier;
    var gone := Gone(st, j);
    GoneInOnePlace(st, j);
    GoneKnows(st, j, id);
    UpdateMoves(gone, order, id);
    UpdateKeepsInv(gone, order);
    var st' := UpdateMinTier(gone, order);
    if only.Some? && st'.judges[only.value].working.None? {
      HandleFreeMoves(st', only.value, id);
    }
  }

  lemma DoneTracks<J>(st: State<J>, j: J, i: nat, id: nat)
    requires Inv(st) && Legal(st, Done(j, i))
    ensures Known(OnJudgeFree(st, j, i), id) <==> Known(st, id) && i != id
  {
    hide HandleFree, DistinctIds, MinTier;
    var st' := st.(running := st.running - {i}, judges := st.judges[j := st.judges[j].(working := None)]);
    SameTeamSameTiers(st, st');
    assert InOnePlace(st');
    assert Queued(st', id) == Queued(st, id);
    HandleFreeMoves(st', j, id);
  }

  lemma JoinTracks<J>(st: State<J>, j: J, w: Worker, order: seq<J>, id: nat)
    requires Inv(st) && Legal(st, Join(j, w, order))
    ensures Known(Register(st, j, w, order), id) <==> Known(st, id)
  {
    NewcomerDoesNotRaise(st, j, w);
    var joined := Joined(st, j, w);
    assert InOnePlace(joined);
    assert Queued(joined, id) == Queued(st, id);
    UpdateMoves(joined, order, id);
    UpdateKeepsInv(joined, order);
    HandleFreeMoves(UpdateMinTier(joined, order), j, id);
  }

  lemma LearnTracks<J>(st: State<J>, j: J, problems: set<string>, id: nat)
    requires Inv(st) && Legal(st, Learn(j, problems))
    ensures Known(UpdateProblems(st, j, problems), id) <==> Known(st, id)
  {
    var st' := st.(judges := st.judges[j := st.judges[j].(problems := problems)]);
    assert Queued(st', id) == Queued(st, id);
    if st.judges[j].working.None? {
      LearnedInv(st, j, problems);
      HandleFreeMoves(st', j, id);
    }
  }

  lemma LearnedInv<J>(st: State<J>, j: J, problems: set<string>)
    requires Inv(st) && j in st.judges
    ensures Inv(st.(judges := st.judges[j := st.judges[j].(problems := problems)]))
    ensures Current(st.(judges := st.judges[j := st.judges[j].(problems := problems)])) == Current(st)
  {
    var st' := st.(judges := st.judges[j := st.judges[j].(problems := problems)]);
    assert Tiers(st'.judges) == Tiers(st.judges) by {
      forall x | x in Tiers(st.judges) ensures x in Tiers(st'.judges) {
        var i :| i in st.judges && !st.judges[i].disabled && st.judges[i].tier == x;
        assert !st'.judges[i].disabled && st'.judges[i].tier == x;
      }
    }
  }

  lemma DropTracks<J>(st: State<J>, i: nat, st': State<J>, id: nat)
    requires Inv(st) && IsAbort(st, i, st')
    ensures Known(st', id) <==> Known(st, id) && !(i == id && i !in st.running)
  {
    hide DistinctIds, MinTier, Tiers, Without;
    if i !in st.running && Queued(st, i) {
      var p, k :| 0 <= p < |st.fifos| && 0 <= k < |st.fifos[p]| && st.fifos[p][k].id == i && st' == DropFrom(st, p, k);
      QueuedWithout(st, st', p, k, id);
    }
  }

  lemma FlagTracks<J>(st: State<J>, name: string, disabled: bool, order: seq<J>, id: nat)
    requires Inv(st) && Legal(st, Flag(name, disabled, order))
    ensures Known(UpdateDisabled(st, name, disabled, order), id) <==> Known(st, id)
  {
    hide DistinctIds, MinTier, Tiers, HandleAll;
    assert InOnePlace(Flagged(st, name, disabled));
    assert Queued(Flagged(st, name, disabled), id) == Queued(st, id);
    UpdateMoves(Flagged(st, name, disabled), order, id);
  }

  /** An accepted submission stays in its one place until it is judged, aborted or lost with its judge. */
  lemma SubmissionsAreTracked<J>(st: State<J>, e: Step<J>, st': State<J>, id: nat)
    requires Inv(st) && Legal(st, e) && Next(st, e, st')
    ensures Known(st', id) <==> (Known(st, id) && !Ends(st, e, id)) || Starts(e, id)
    ensures e.Arrive? && Known(st, e.s.id) ==> st' == st
  {
    hide Inv, Legal, Known, Accept, OnJudgeFree, Register, Remove, IsAbort, UpdateProblems, UpdateDisabled;
    match e
    case Arrive(s, p, choice) => ArriveTracks(st, s, p, choice, id);
    case Done(j, i) => DoneTracks(st, j, i, id);
    case Join(j, w, order) => JoinTracks(st, j, w, order, id);
    case Leave(j, order, only) => LeaveTracks(st, j, order, only, id);
    case Drop(i) => DropTracks(st, i, st', id);
    case Learn(j, problems) => LearnTracks(st, j, problems, id);
    case Flag(name, disabled, order) => FlagTracks(st, name, disabled, order, id);
  }

  // ------------------------------------------------------------------- no judge is idle while urgent work waits

  /** Nothing of contest or default priority that waits is for judge j. */
  ghost predicate NothingUrgent<J>(st: State<J>, j: J)
    requires j in st.judges
  {
    forall p, k :: 0 <= p < |st.fifos| && p < REJUDGE && 0 <= k < |st.fifos[p]| ==>
      !st.judges[j].CanJudge(st.fifos[p][k])
  }

  ghost predicate NoneIdle<J>(st: State<J>) {
    forall j :: j in Free(st) ==> NothingUrgent(st, j)
  }

  ghost predicate Fewer(fifos: seq<seq<Sub>>, fifos': seq<seq<Sub>>) {
    |fifos'| == |fifos| &&
    forall p, k :: 0 <= p < |fifos'| && 0 <= k < |fifos'[p]| ==> fifos'[p][k] in fifos[p]
  }

  lemma WithoutIsFewer(fifos: seq<seq<Sub>>, p: nat, k: nat)
    requires p < |fifos| && k < |fifos[p]|
    ensures Fewer(fifos, fifos[p := Without(fifos[p], k)])
  {
    var after: seq<seq<Sub>> := fifos[p := Without(fifos[p], k)];
    WithoutAt(fifos[p], k);
    forall q, l | 0 <= q < |after| && 0 <= l < |after[q]| ensures after[q][l] in fifos[q] {
      var m := if q == p && l >= k then l + 1 else l;
      assert fifos[q][m] == after[q][l];
    }
  }

  lemma FewerKeepsQuiet<J>(st: State<J>, st': State<J>, j: J)
    requires j in st.judges && j in st'.judges && NothingUrgent(st, j) && Fewer(st.fifos, st'.fifos)
    requires st'.judges[j] == st.judges[j].(working := st'.judges[j].working)
    ensures NothingUrgent(st', j)
  {
    forall p, k | 0 <= p < |st'.fifos| && p < REJUDGE && 0 <= k < |st'.fifos[p]|
      ensures !st'.judges[j].CanJudge(st'.fifos[p][k])
    {
      var m :| 0 <= m < |st.fifos[p]| && st.fifos[p][m] == st'.fifos[p][k];
      assert !st.judges[j].CanJudge(st.fifos[p][m]);
    }
  }

  /** A judge of the current tier that becomes free gets work, or there is no urgent work for it. */
  lemma HandleFreeServes<J>(st: State<J>, j: J)
    requires Inv(st) && j in st.judges && st.judges[j].working.None?
    ensures var st' := HandleFree(st, j);
            Fewer(st.fifos, st'.fifos) &&
            (st.minTier.Some? && st.judges[j].tier <= st.minTier.value ==>
              st'.judges[j].working.Some? || NothingUrgent(st', j))
  {
    if st.minTier.Some? && st.judges[j].tier <= st.minTier.value {
      match Pick(st.fifos, st.judges[j], ShouldReserve(st))
      case None =>
        assert Fewer(st.fifos, st.fifos);
        assert forall p, k :: 0 <= p < REJUDGE && 0 <= k < |st.fifos[p]| ==> !st.judges[j].CanJudge(st.fifos[p][k]);
      case Some(at) => WithoutIsFewer(st.fifos, at.0, at.1);
    }
  }

  ghost predicate Settled<J>(st: State<J>, j: J)
    requires j in st.judges
  {
    st.judges[j].working.Some? || NothingUrgent(st, j)
  }

  lemma HandleFreeKeepsSettled<J>(st: State<J>, j: J, i: J)
    requires Inv(st) && j in st.judges && st.judges[j].working.None? && i in st.judges && Settled(st, i)
    ensures Settled(HandleFree(st, j), i)
  {
    HandleFreeServes(st, j);
    HandleFreeKeepsInv(st, j);
    if NothingUrgent(st, i) { FewerKeepsQuiet(st, HandleFree(st, j), i); }
  }

  lemma {:induction false} HandleAllSettles<J>(st: State<J>, order: seq<J>, done: set<J>)
    requires Inv(st) && (forall j :: j in order ==> j in st.judges && j in Current(st))
    requires done <= st.judges.Keys && forall j :: j in done ==> Settled(st, j)
    ensures forall j :: j in done + (set i | i in order) ==> Settled(HandleAll(st, order), j)
    decreases |order|
  {
    hide Inv, Settled, Current, HandleFree;
    if order != [] {
      var j := order[0];
      var st' := st;
      if st.judges[j].working.None? {
        st' := HandleFree(st, j);
        FreedIsSettled(st, j);
        HandleFreeKeepsInv(st, j);
        SameTeamSameTiers(st, st');
        forall i | i in done ensures Settled(st', i) { HandleFreeKeepsSettled(st, j, i); }
      }
      WorkingIsSettled(st', j);
      assert forall i :: i in order[1..] ==> i in order;
      assert order == [j] + order[1..];
      HandleAllSettles(st', order[1..], done + {j});
    }
  }

  lemma WorkingIsSettled<J>(st: State<J>, j: J)
    requires j in st.judges
    ensures st.judges[j].working.Some? ==> Settled(st, j)
  {}

  lemma FreedIsSettled<J>(st: State<J>, j: J)
    requires Inv(st) && j in Current(st) && st.judges[j].working.None?
    ensures Settled(HandleFree(st, j), j)
  {
    hide HandleFree, NothingUrgent;
    HandleFreeServes(st, j);
  }

  /** When the tier goes up its judges are all offered work. */
  lemma RaisedLeavesNoneIdle<J>(st: State<J>, order: seq<J>)
    requires |st.fifos| == PRIORITIES && InOnePlace(st) && GoodOrder(st, order) && TierRaised(st)
    ensures NoneIdle(UpdateMinTier(st, order))
  {
    hide DistinctIds, NothingUrgent, MinTier, HandleAll;
    var now, st' := st.(minTier := MinTier(st.judges)), UpdateMinTier(st, order);
    UpdateKeepsInv(st, order);
    SameTeamSameTiers(now, st');
    HandleAllSettles(now, order, {});
    forall i | i in Free(st') ensures NothingUrgent(st', i) {
      assert i in Current(now);
      assert Settled(st', i);
    }
  }

  lemma HandleFreeKeepsNoneIdle<J>(st: State<J>, j: J)
    requires Inv(st) && j in st.judges && st.judges[j].working.None?
    requires forall i :: i in Free(st) && i != j ==> NothingUrgent(st, i)
    ensures NoneIdle(HandleFree(st, j))
  {
    var st' := HandleFree(st, j);
    HandleFreeServes(st, j);
    HandleFreeKeepsInv(st, j);
    SameTeamSameTiers(st, st');
    forall i | i in Free(st') ensures NothingUrgent(st', i) {
      if i != j {
        assert i in Free(st);
        FewerKeepsQuiet(st, st', i);
      }
    }
  }

  lemma ArriveLeavesNoneIdle<J>(st: State<J>, s: Sub, p: nat, choice: Option<J>)
    requires Inv(st) && NoneIdle(st) && Legal(st, Arrive(s, p, choice))
    ensures NoneIdle(Accept(st, s, p, choice))
  {
    var st' := Accept(st, s, p, choice);
    assert SameTeam(st, st');
    SameTeamSameTiers(st, st');
    forall j | j in Free(st') ensures NothingUrgent(st', j) {
      assert j in Free(st);
      forall q, k | 0 <= q < |st'.fifos| && q < REJUDGE && 0 <= k < |st'.fifos[q]|
        ensures !st'.judges[j].CanJudge(st'.fifos[q][k])
      {
        if k < |st.fifos[q]| {
          assert st'.fifos[q][k] == st.fifos[q][k];
        } else {
          assert st'.fifos[q][k] == s && q == p;
          assert j !in Available(st, s, p);
        }
      }
    }
  }

  lemma DoneLeavesNoneIdle<J>(st: State<J>, j: J, id: nat)
    requires Inv(st) && NoneIdle(st) && Legal(st, Done(j, id))
    ensures NoneIdle(OnJudgeFree(st, j, id))
  {
    hide HandleFree, DistinctIds, MinTier;
    var st' := st.(running := st.running - {id}, judges := st.judges[j := st.judges[j].(working := None)]);
    SameTeamSameTiers(st, st');
    assert InOnePlace(st');
    forall i | i in Free(st') && i != j ensures NothingUrgent(st', i) {
      assert i in Free(st) && NothingUrgent(st, i);
    }
    HandleFreeKeepsNoneIdle(st', j);
  }

  lemma JoinLeavesNoneIdle<J>(st: State<J>, j: J, w: Worker, order: seq<J>)
    requires Inv(st) && NoneIdle(st) && Legal(st, Join(j, w, order))
    ensures NoneIdle(Register(st, j, w, order))
  {
    NewcomerDoesNotRaise(st, j, w);
    var joined := Joined(st, j, w);
    assert InOnePlace(joined);
    UpdateKeepsInv(joined, order);
    var st' := UpdateMinTier(joined, order);
    assert st' == joined.(minTier := MinTier(joined.judges));
    forall i | i in Free(st') && i != j ensures NothingUrgent(st', i) {
      assert i in st.judges && st'.judges[i] == st.judges[i];
      assert i in Free(st) by { OldJudgesKeepTier(st, j, w, i); }
      assert NothingUrgent(st, i);
    }
    HandleFreeKeepsNoneIdle(st', j);
  }

  lemma OldJudgesKeepTier<J>(st: State<J>, j: J, w: Worker, i: J)
    requires Inv(st) && j !in st.judges && i in st.judges && !st.judges[i].disabled
    requires MinTier(Joined(st, j, w).judges) == Some(st.judges[i].tier)
    ensures st.minTier == Some(st.judges[i].tier)
  {
    NewcomerDoesNotRaise(st, j, w);
    assert st.judges[i].tier in Tiers(st.judges);
  }

  /** With fewer judges and no higher tier, the current tier is as before or empty. */
  lemma TierStays<J>(st: State<J>, j: J)
    requires Inv(st) && j in st.judges && !TierRaised(Gone(st, j))
    ensures forall i :: i in Current(Gone(st, j).(minTier := MinTier(Gone(st, j).judges))) ==>
              i in Current(st) && i != j
  {
    var js := Gone(st, j).judges;
    forall i | i in Current(Gone(st, j).(minTier := MinTier(js))) ensures i in Current(st) && i != j {
      assert js[i].tier in Tiers(st.judges) by { assert st.judges[i] == js[i]; }
    }
  }

  lemma LeftAlone<J>(st: State<J>, j: J)
    requires Inv(st) && NoneIdle(st) && j in st.judges && !TierRaised(Gone(st, j))
    ensures NoneIdle(UpdateMinTier(Gone(st, j), []))
  {
    hide InOnePlace, MinTier, TierRaised;
    TierStays(st, j);
    var st' := UpdateMinTier(Gone(st, j), []);
    forall i | i in Free(st') ensures NothingUrgent(st', i) {
      assert i in Free(st) && st'.judges[i] == st.judges[i];
      assert NothingUrgent(st, i);
    }
  }

  lemma LeaveLeavesNoneIdle<J>(st: State<J>, j: J, order: seq<J>, only: Option<J>)
    requires Inv(st) && NoneIdle(st) && Legal(st, Leave(j, order, only))
    ensures NoneIdle(Remove(st, j, order, only))
  {
    hide Gone, InOnePlace, NothingUrgent, UpdateMinTier, TierRaised, HandleFree;
    var gone := Gone(st, j);
    GoneInOnePlace(st, j);
    UpdateKeepsInv(gone, order);
    var st' := UpdateMinTier(gone, order);
    if TierRaised(gone) { RaisedLeavesNoneIdle(gone, order); } else { LeftAlone(st, j); }
    if only.Some? && st'.judges[only.value].working.None? {
      HandleFreeKeepsNoneIdle(st', only.value);
    }
  }

  lemma LearnLeavesNoneIdle<J>(st: State<J>, j: J, problems: set<string>)
    requires Inv(st) && NoneIdle(st) && Legal(st, Learn(j, problems))
    ensures NoneIdle(UpdateProblems(st, j, problems))
  {
    var st' := st.(judges := st.judges[j := st.judges[j].(problems := problems)]);
    LearnedInv(st, j, problems);
    forall i | i in Free(st') && i != j ensures NothingUrgent(st', i) {
      assert i in Free(st) && NothingUrgent(st, i);
    }
    if st.judges[j].working.None? {
      HandleFreeKeepsNoneIdle(st', j);
    }
  }

  lemma DropLeavesNoneIdle<J>(st: State<J>, id: nat, st': State<J>)
    requires NoneIdle(st) && IsAbort(st, id, st')
    ensures NoneIdle(st')
  {
    hide NothingUrgent, Without;
    if id !in st.running && Queued(st, id) {
      var p, k :| 0 <= p < |st.fifos| && 0 <= k < |st.fifos[p]| && st.fifos[p][k].id == id && st' == DropFrom(st, p, k);
      WithoutIsFewer(st.fifos, p, k);
      forall j | j in Free(st') ensures NothingUrgent(st', j) {
        assert j in Free(st);
        FewerKeepsQuiet(st, st', j);
      }
    }
  }

  /** What the judges are after some are enabled or disabled, before any of them is offered work. */
  ghost function Retiered<J>(st: State<J>, name: string, disabled: bool): State<J> {
    Flagged(st, name, disabled).(minTier := MinTier(Flagged(st, name, disabled).judges))
  }

  /** The tier goes up, so all its judges are offered work; or no judge that becomes available could use any. */
  ghost predicate FlagServes<J>(st: State<J>, name: string, disabled: bool) {
    TierRaised(Flagged(st, name, disabled)) ||
    forall j :: j in Free(Retiered(st, name, disabled)) && j !in Free(st) ==>
      NothingUrgent(Retiered(st, name, disabled), j)
  }

  /** Enabling or disabling judges leaves nobody idle before urgent work exactly then. */
  lemma FlagLeavesNoneIdleIff<J>(st: State<J>, name: string, disabled: bool, order: seq<J>)
    requires Inv(st) && NoneIdle(st) && Legal(st, Flag(name, disabled, order))
    ensures NoneIdle(UpdateDisabled(st, name, disabled, order)) <==> FlagServes(st, name, disabled)
  {
    var flagged, now := Flagged(st, name, disabled), Retiered(st, name, disabled);
    var st' := UpdateDisabled(st, name, disabled, order);
    assert InOnePlace(flagged);
    if TierRaised(flagged) {
      RaisedLeavesNoneIdle(flagged, order);
    } else {
      assert st' == now;
      forall j | j in Free(now) && j in Free(st) ensures NothingUrgent(now, j) {
        assert now.judges[j] == st.judges[j];
        assert NothingUrgent(st, j);
      }
    }
  }

  /**
   No submission of contest or default priority waits while a free judge of the current tier can judge it: every step
   keeps it, but for enabling or disabling judges, which keeps it exactly when FlagServes says.
   */
  lemma StepLeavesNoneIdle<J>(st: State<J>, e: Step<J>, st': State<J>)
    requires Inv(st) && NoneIdle(st) && Legal(st, e) && Next(st, e, st')
    ensures NoneIdle(st') <==> (e.Flag? ==> FlagServes(st, e.name, e.disabled))
  {
    hide Inv, Legal, NothingUrgent, Accept, OnJudgeFree, Register, Remove, IsAbort, UpdateProblems, UpdateDisabled;
    match e
    case Arrive(s, p, choice) => ArriveLeavesNoneIdle(st, s, p, choice);
    case Done(j, id) => DoneLeavesNoneIdle(st, j, id);
    case Join(j, w, order) => JoinLeavesNoneIdle(st, j, w, order);
    case Leave(j, order, only) => LeaveLeavesNoneIdle(st, j, order, only);
    case Drop(id) => DropLeavesNoneIdle(st, id, st');
    case Learn(j, problems) => LearnLeavesNoneIdle(st, j, problems);
    case Flag(name, disabled, order) => FlagLeavesNoneIdleIff(st, name, disabled, order);
  }

  // ------------------------------------------------------------------------------------ nobody is overtaken

  /** Whatever judge can take one can take the other. */
  ghost predicate SameKind(s: Sub, t: Sub) {
    s.problem == t.problem && s.language == t.language && s.judgeId == t.judgeId
  }

  /** `first` waits before `second` in the queue of priority p. */
  ghost predicate Ahead(fifos: seq<seq<Sub>>, p: nat, first: Sub, second: Sub) {
    p < |fifos| && exists i, k :: 0 <= i < k < |fifos[p]| && fifos[p][i] == first && fifos[p][k] == second
  }

  lemma WithoutKeepsOrder(fifo: seq<Sub>, n: nat, i: nat, k: nat)
    requires n < |fifo| && i < k < |fifo| && n != i && n != k
    ensures var left := Without(fifo, n);
            exists i', k' :: 0 <= i' < k' < |left| && left[i'] == fifo[i] && left[k'] == fifo[k]
  {
    WithoutAt(fifo, n);
    var i', k' := if n < i then i - 1 else i, if n < k then k - 1 else k;
    assert Without(fifo, n)[i'] == fifo[i] && Without(fifo, n)[k'] == fifo[k];
  }

  lemma DropKeepsOrder(fifos: seq<seq<Sub>>, q: nat, n: nat, p: nat, first: Sub, second: Sub)
    requires q < |fifos| && n < |fifos[q]| && Ahead(fifos, p, first, second)
    requires fifos[q][n].id != first.id && fifos[q][n].id != second.id
    ensures Ahead(fifos[q := Without(fifos[q], n)], p, first, second)
  {
    var i, k :| 0 <= i < k < |fifos[p]| && fifos[p][i] == first && fifos[p][k] == second;
    var after: seq<seq<Sub>> := fifos[q := Without(fifos[q], n)];
    if q == p {
      assert n != i && n != k;
      WithoutKeepsOrder(fifos[p], n, i, k);
      var i', k' :| 0 <= i' < k' < |after[p]| && after[p][i'] == first && after[p][k'] == second;
    } else {
      assert after[p][i] == first && after[p][k] == second;
    }
  }

  lemma HandleFreeKeepsOrder<J>(st: State<J>, j: J, p: nat, first: Sub, second: Sub)
    requires Inv(st) && j in st.judges && st.judges[j].working.None?
    requires SameKind(first, second) && Ahead(st.fifos, p, first, second)
    ensures Ahead(HandleFree(st, j).fifos, p, first, second) || first.id in HandleFree(st, j).running
  {
    if st.minTier.Some? && st.judges[j].tier <= st.minTier.value {
      match Pick(st.fifos, st.judges[j], ShouldReserve(st))
      case None =>
      case Some(at) =>
        var i, k :| 0 <= i < k < |st.fifos[p]| && st.fifos[p][i] == first && st.fifos[p][k] == second;
        if st.fifos[at.0][at.1].id == second.id {
          assert at.0 == p && at.1 == k;
          assert st.judges[j].CanJudge(st.fifos[p][i]);
        } else if st.fifos[at.0][at.1].id != first.id {
          DropKeepsOrder(st.fifos, at.0, at.1, p, first, second);
        }
    }
  }

  lemma {:induction false} HandleAllKeepsOrder<J>(st: State<J>, order: seq<J>, p: nat, first: Sub, second: Sub)
    requires Inv(st) && (forall j :: j in order ==> j in st.judges) && SameKind(first, second)
    requires Ahead(st.fifos, p, first, second) || first.id in st.running
    ensures Ahead(HandleAll(st, order).fifos, p, first, second) || first.id in HandleAll(st, order).running
    decreases |order|
  {
    if order != [] {
      var j := order[0];
      var st' := st;
      if st.judges[j].working.None? {
        st' := HandleFree(st, j);
        HandleFreeKeepsInv(st, j);
        if Ahead(st.fifos, p, first, second) {
          HandleFreeKeepsOrder(st, j, p, first, second);
        } else {
          HandleFreeMoves(st, j, first.id);
        }
      }
      HandleAllKeepsOrder(st', order[1..], p, first, second);
    }
  }

  lemma HandleFreeAfter<J>(st: State<J>, j: J, p: nat, first: Sub, second: Sub)
    requires Inv(st) && j in st.judges && st.judges[j].working.None? && SameKind(first, second)
    requires Ahead(st.fifos, p, first, second) || first.id in st.running
    ensures Ahead(HandleFree(st, j).fifos, p, first, second) || first.id in HandleFree(st, j).running
  {
    if Ahead(st.fifos, p, first, second) {
      HandleFreeKeepsOrder(st, j, p, first, second);
    } else {
      HandleFreeMoves(st, j, first.id);
    }
  }

  lemma UpdateKeepsOrder<J>(st: State<J>, order: seq<J>, p: nat, first: Sub, second: Sub)
    requires |st.fifos| == PRIORITIES && InOnePlace(st) && GoodOrder(st, order) && SameKind(first, second)
    requires Ahead(st.fifos, p, first, second)
    ensures Ahead(UpdateMinTier(st, order).fifos, p, first, second) || first.id in UpdateMinTier(st, order).running
  {
    HandleAllKeepsOrder(st.(minTier := MinTier(st.judges)), order, p, first, second);
  }

  lemma ArriveKeepsOrder<J>(st: State<J>, s: Sub, q: nat, choice: Option<J>, p: nat, first: Sub, second: Sub)
    requires Inv(st) && Legal(st, Arrive(s, q, choice)) && Ahead(st.fifos, p, first, second)
    ensures Ahead(Accept(st, s, q, choice).fifos, p, first, second)
  {
    hide InOnePlace, MinTier, Available;
    var st' := Accept(st, s, q, choice);
    var i, k :| 0 <= i < k < |st.fifos[p]| && st.fifos[p][i] == first && st.fifos[p][k] == second;
    assert st'.fifos[p][i] == first && st'.fifos[p][k] == second;
  }

  lemma DoneKeepsOrder<J>(st: State<J>, j: J, id: nat, p: nat, first: Sub, second: Sub)
    requires Inv(st) && Legal(st, Done(j, id)) && SameKind(first, second) && Ahead(st.fifos, p, first, second)
    ensures Ahead(OnJudgeFree(st, j, id).fifos, p, first, second) || first.id in OnJudgeFree(st, j, id).running
  {
    hide Ahead, SameKind, HandleFree, DistinctIds, MinTier;
    var st' := st.(running := st.running - {id}, judges := st.judges[j := st.judges[j].(working := None)]);
    SameTeamSameTiers(st, st');
    assert InOnePlace(st');
    HandleFreeAfter(st', j, p, first, second);
  }

  lemma JoinKeepsOrder<J>(st: State<J>, j: J, w: Worker, order: seq<J>, p: nat, first: Sub, second: Sub)
    requires Inv(st) && Legal(st, Join(j, w, order)) && SameKind(first, second) && Ahead(st.fifos, p, first, second)
    ensures Ahead(Register(st, j, w, order).fifos, p, first, second) || first.id in Register(st, j, w, order).running
  {
    NewcomerDoesNotRaise(st, j, w);
    assert InOnePlace(Joined(st, j, w));
    UpdateKeepsInv(Joined(st, j, w), order);
    UpdateKeepsOrder(Joined(st, j, w), order, p, first, second);
    HandleFreeAfter(UpdateMinTier(Joined(st, j, w), order), j, p, first, second);
  }

  lemma LeaveKeepsOrder<J>(st: State<J>, j: J, order: seq<J>, only: Option<J>, p: nat, first: Sub, second: Sub)
    requires Inv(st) && Legal(st, Leave(j, order, only)) && SameKind(first, second) && Ahead(st.fifos, p, first, second)
    ensures Ahead(Remove(st, j, order, only).fifos, p, first, second) || first.id in Remove(st, j, order, only).running
  {
    hide Gone, InOnePlace, Ahead, HandleFree, HandleAll, MinTier;
    GoneInOnePlace(st, j);
    UpdateKeepsInv(Gone(st, j), order);
    UpdateKeepsOrder(Gone(st, j), order, p, first, second);
    var st' := UpdateMinTier(Gone(st, j), order);
    if only.Some? && st'.judges[only.value].working.None? {
      HandleFreeAfter(st', only.value, p, first, second);
    }
  }

  lemma AbortKeepsOrder<J>(st: State<J>, id: nat, st': State<J>, p: nat, first: Sub, second: Sub)
    requires IsAbort(st, id, st') && Ahead(st.fifos, p, first, second) && id != first.id && id != second.id
    ensures Ahead(st'.fifos, p, first, second)
  {
    hide Ahead, Without;
    if id !in st.running && Queued(st, id) {
      var q, n :| 0 <= q < |st.fifos| && 0 <= n < |st.fifos[q]| && st.fifos[q][n].id == id && st' == DropFrom(st, q, n);
      DropKeepsOrder(st.fifos, q, n, p, first, second);
    }
  }

  lemma LearnKeepsOrder<J>(st: State<J>, j: J, problems: set<string>, p: nat, first: Sub, second: Sub)
    requires Inv(st) && Legal(st, Learn(j, problems)) && SameKind(first, second) && Ahead(st.fifos, p, first, second)
    ensures Ahead(UpdateProblems(st, j, problems).fifos, p, first, second)
            || first.id in UpdateProblems(st, j, problems).running
  {
    hide Inv, Ahead, SameKind, HandleFree;
    if st.judges[j].working.None? {
      LearnedInv(st, j, problems);
      HandleFreeAfter(st.(judges := st.judges[j := st.judges[j].(problems := problems)]), j, p, first, second);
    }
  }

  lemma FlagKeepsOrder<J>(st: State<J>, name: string, disabled: bool, order: seq<J>, p: nat, first: Sub, second: Sub)
    requires Inv(st) && Legal(st, Flag(name, disabled, order))
    requires SameKind(first, second) && Ahead(st.fifos, p, first, second)
    ensures Ahead(UpdateDisabled(st, name, disabled, order).fifos, p, first, second)
            || first.id in UpdateDisabled(st, name, disabled, order).running
  {
    hide Ahead, SameKind, MinTier, HandleAll, DistinctIds;
    assert InOnePlace(Flagged(st, name, disabled));
    UpdateKeepsOrder(Flagged(st, name, disabled), order, p, first, second);
  }

  /** Of two submissions any judge treats alike, the one ahead stays ahead until it is with a judge. */
  lemma StepKeepsOrder<J>(st: State<J>, e: Step<J>, st': State<J>, p: nat, first: Sub, second: Sub)
    requires Inv(st) && Legal(st, e) && Next(st, e, st')
    requires SameKind(first, second) && Ahead(st.fifos, p, first, second)
    requires e != Drop(first.id) && e != Drop(second.id)
    ensures Ahead(st'.fifos, p, first, second) || first.id in st'.running
  {
    hide Inv, Legal, Ahead, SameKind, Accept, OnJudgeFree, Register, Remove, IsAbort, UpdateProblems, UpdateDisabled;
    match e
    case Arrive(s, q, choice) => ArriveKeepsOrder(st, s, q, choice, p, first, second);
    case Done(j, id) => DoneKeepsOrder(st, j, id, p, first, second);
    case Join(j, w, order) => JoinKeepsOrder(st, j, w, order, p, first, second);
    case Leave(j, order, only) => LeaveKeepsOrder(st, j, order, only, p, first, second);
    case Drop(id) => AbortKeepsOrder(st, id, st', p, first, second);
    case Learn(j, problems) => LearnKeepsOrder(st, j, problems, p, first, second);
    case Flag(name, disabled, order) => FlagKeepsOrder(st, name, disabled, order, p, first, second);
  }

  /** A submission of contest or default priority queues behind its kind; it never finds a judge the other missed. */
  lemma ArriveQueuesBehind<J>(st: State<J>, s: Sub, p: nat, choice: Option<J>, first: Sub)
    requires Inv(st) && NoneIdle(st) && Legal(st, Arrive(s, p, choice)) && p < REJUDGE
    requires !Known(st, s.id) && first in st.fifos[p] && SameKind(first, s)
    ensures Ahead(Accept(st, s, p, choice).fifos, p, first, s)
  {
    var i :| 0 <= i < |st.fifos[p]| && st.fifos[p][i] == first;
    forall j | j in st.judges ensures j !in Available(st, s, p) {
      if j in Free(st) { assert !st.judges[j].CanJudge(st.fifos[p][i]); }
    }
    assert Available(st, s, p) == {};
    var fifo := Accept(st, s, p, choice).fifos[p];
    assert fifo[i] == first && fifo[|st.fifos[p]|] == s;
  }

  // -------------------------------------------------------------------------------------------- whole runs

  ghost predicate IsRun<J>(trace: seq<State<J>>, steps: seq<Step<J>>) {
    |trace| == |steps| + 1 && Inv(trace[0]) &&
    forall i :: 0 <= i < |steps| ==>
      |trace[i].fifos| == PRIORITIES && Legal(trace[i], steps[i]) && Next(trace[i], steps[i], trace[i + 1])
  }

  lemma StartKeepsBooks<J>()
    ensures Inv(Start<J>()) && NoneIdle(Start<J>())
  {
    hide Least;
    var st := Start<J>();
    forall p | 0 <= p < |st.fifos| ensures st.fifos[p] == [] {
      assert p == 0 || p == 1 || p == 2 || p == 3;
    }
    assert Tiers(st.judges) == {};
  }

  lemma {:induction false} RunKeepsInv<J>(trace: seq<State<J>>, steps: seq<Step<J>>, m: nat)
    requires IsRun(trace, steps) && m <= |steps|
    ensures Inv(trace[m])
  {
    hide Inv, Legal, Next;
    if m > 0 {
      RunKeepsInv(trace, steps, m - 1);
      StepKeepsInv(trace[m - 1], steps[m - 1], trace[m]);
    }
  }

  lemma {:induction false} RunLeavesNoneIdle<J>(trace: seq<State<J>>, steps: seq<Step<J>>, m: nat)
    requires IsRun(trace, steps) && NoneIdle(trace[0]) && m <= |steps|
    requires forall i {:trigger steps[i]} :: 0 <= i < m && steps[i].Flag? ==>
      FlagServes(trace[i], steps[i].name, steps[i].disabled)
    ensures NoneIdle(trace[m])
  {
    hide Inv, NoneIdle, Legal, Next;
    if m > 0 {
      RunLeavesNoneIdle(trace, steps, m - 1);
      RunKeepsInv(trace, steps, m - 1);
      StepLeavesNoneIdle(trace[m - 1], steps[m - 1], trace[m]);
    }
  }

  /**
   From the moment a submission arrives while one of its kind and priority waits, it waits behind that one for as long
   as that one is not with a judge and neither is aborted: it is never dispatched before it.
   */
  lemma {:induction false} NeverOvertaken<J>(trace: seq<State<J>>, steps: seq<Step<J>>, b: nat, m: nat, first: Sub)
    requires IsRun(trace, steps) && NoneIdle(trace[0]) && b < m <= |steps|
    requires forall i {:trigger steps[i]} :: 0 <= i < b && steps[i].Flag? ==>
      FlagServes(trace[i], steps[i].name, steps[i].disabled)
    requires steps[b].Arrive? && steps[b].p < REJUDGE && !Known(trace[b], steps[b].s.id)
    requires first in trace[b].fifos[steps[b].p] && SameKind(first, steps[b].s)
    requires forall i :: b < i < m ==> steps[i] != Drop(first.id) && steps[i] != Drop(steps[b].s.id)
    requires forall i :: b < i <= m ==> first.id !in trace[i].running
    ensures Ahead(trace[m].fifos, steps[b].p, first, steps[b].s)
    ensures steps[b].s.id !in trace[m].running
    decreases m
  {
    hide Inv, NoneIdle, Legal, Next, SameKind, Known;
    var s, p := steps[b].s, steps[b].p;
    if m == b + 1 {
      RunKeepsInv(trace, steps, b);
      RunLeavesNoneIdle(trace, steps, b);
      ArriveQueuesBehind(trace[b], s, p, steps[b].choice, first);
      ArriveIsAccept(trace[b], steps[b], trace[m]);
    } else {
      NeverOvertaken(trace, steps, b, m - 1, first);
      RunKeepsInv(trace, steps, m - 1);
      StepKeepsOrder(trace[m - 1], steps[m - 1], trace[m], p, first, s);
    }
    RunKeepsInv(trace, steps, m);
    WaitingIsNotRunning(trace[m], p, first, s);
  }

  lemma ArriveIsAccept<J>(st: State<J>, e: Step<J>, st': State<J>)
    requires |st.fifos| == PRIORITIES && e.Arrive? && Legal(st, e) && Next(st, e, st')
    ensures st' == Accept(st, e.s, e.p, e.choice)
  {}

  lemma WaitingIsNotRunning<J>(st: State<J>, p: nat, first: Sub, second: Sub)
    requires Inv(st) && Ahead(st.fifos, p, first, second)
    ensures second.id !in st.running
  {}

  /**
   An instance where it fails: a free judge is enabled, no enabled one being of a lower tier, and it is left idle before
   work it can take.  The tier does not go up, so nobody looks at what was waiting.
   */
  lemma EnablingLeavesIdle<J>(st: State<J>, name: string, j: J, p: nat, k: nat)
    requires Inv(st) && j in st.judges && st.judges[j].name == name && st.judges[j].working.None?
    requires st.minTier.Some? ==> st.judges[j].tier <= st.minTier.value
    requires forall i :: i in st.judges && st.judges[i].name == name ==> i == j
    requires p < REJUDGE && p < |st.fifos| && k < |st.fifos[p]|
    requires st.judges[j].(disabled := false).CanJudge(st.fifos[p][k])
    ensures GoodOrder(Flagged(st, name, false), []) && !NoneIdle(UpdateDisabled(st, name, false, []))
    ensures st.judges[j].disabled ==> !FlagServes(st, name, false)
  {
    var flagged, now := Flagged(st, name, false), Retiered(st, name, false);
    assert flagged.judges[j].tier in Tiers(flagged.judges);
    forall t | t in Tiers(flagged.judges) ensures t >= st.judges[j].tier {
      var i :| i in flagged.judges && !flagged.judges[i].disabled && flagged.judges[i].tier == t;
      assert i != j ==> t in Tiers(st.judges);
    }
    assert MinTier(flagged.judges) == Some(st.judges[j].tier);
    assert j in Free(now) && now.judges[j].CanJudge(now.fifos[p][k]);
    assert st.judges[j].disabled ==> j !in Free(st);
  }
}
