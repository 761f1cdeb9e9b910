/** What every step of the dispatcher keeps, and what follows over whole runs. */
module JudgeRuns {
  import opened Common
  import opened JudgeQueue

  // -------------------------------------------------------------------------------- every step keeps the books

  ghost predicate DistinctIds(fifos: seq<seq<Sub>>) {
    forall p, k, q, l :: (0 <= p < |fifos| && 0 <= k < |fifos[p]| && 0 <= q < |fifos| && 0 <= l < |fifos[q]|
                          && fifos[p][k].id == fifos[q][l].id) ==> p == q && k == l
  }

  /** A submission is in one place only: queued once, or with one judge, who works on that one and no other. */
  ghost predicate InOnePlace<J>(st: State<J>) {
    DistinctIds(st.fifos) &&
    (forall p, k :: 0 <= p < |st.fifos| && 0 <= k < |st.fifos[p]| ==> st.fifos[p][k].id !in st.running) &&
    (forall id :: id in st.running ==> st.running[id] in st.judges && st.judges[st.running[id]].working == Some(id)) &&
    (forall j :: j in st.judges && st.judges[j].working.Some? ==>
       st.judges[j].working.value in st.running && st.running[st.judges[j].working.value] == j)
  }

  ghost predicate Inv<J>(st: State<J>) {
    |st.fifos| == PRIORITIES && InOnePlace(st) && st.minTier == MinTier(st.judges)
  }

  /** Only who works, what runs and what waits may have changed: not the judges themselves. */
  ghost predicate SameTeam<J>(st: State<J>, st': State<J>) {
    st'.judges.Keys == st.judges.Keys && st'.minTier == st.minTier && |st'.fifos| == |st.fifos| &&
    forall j :: j in st.judges ==> st'.judges[j] == st.judges[j].(working := st'.judges[j].working)
  }

  lemma SameTeamSameTiers<J>(st: State<J>, st': State<J>)
    requires SameTeam(st, st')
    ensures Tiers(st'.judges) == Tiers(st.judges) && MinTier(st'.judges) == MinTier(st.judges) &&
            Current(st') == Current(st)
  {
    forall x | x in Tiers(st.judges) ensures x in Tiers(st'.judges) {
      var j :| j in st.judges && !st.judges[j].disabled && st.judges[j].tier == x;
      assert st'.judges[j].tier == x && !st'.judges[j].disabled;
    }
    forall x | x in Tiers(st'.judges) ensures x in Tiers(st.judges) {
      var j :| j in st'.judges && !st'.judges[j].disabled && st'.judges[j].tier == x;
      assert st.judges[j].tier == x && !st.judges[j].disabled;
    }
  }

  lemma WithoutAt(fifo: seq<Sub>, k: nat)
    requires k < |fifo|
    ensures |Without(fifo, k)| == |fifo| - 1
    ensures forall i :: 0 <= i < k ==> Without(fifo, k)[i] == fifo[i]
    ensures forall i :: k < i < |fifo| ==> Without(fifo, k)[i - 1] == fifo[i]
    ensures forall i :: 0 <= i < |fifo| - 1 ==> Without(fifo, k)[i] == fifo[if i < k then i else i + 1]
  {}

  lemma DroppingKeepsDistinct(fifos: seq<seq<Sub>>, p: nat, k: nat)
    requires p < |fifos| && k < |fifos[p]| && DistinctIds(fifos)
    ensures DistinctIds(fifos[p := Without(fifos[p], k)])
    ensures var after := fifos[p := Without(fifos[p], k)];
            forall q, l :: 0 <= q < |after| && 0 <= l < |after[q]| ==>
              after[q][l].id != fifos[p][k].id && exists m :: 0 <= m < |fifos[q]| && fifos[q][m] == after[q][l]
  {
    WithoutAt(fifos[p], k);
    var after: seq<seq<Sub>> := fifos[p := Without(fifos[p], k)];
    forall q, l | 0 <= q < |after| && 0 <= l < |after[q]|
      ensures after[q][l].id != fifos[p][k].id
      ensures exists m :: 0 <= m < |fifos[q]| && fifos[q][m] == after[q][l]
    {
      var m := if q == p && l >= k then l + 1 else l;
      assert fifos[q][m] == after[q][l];
    }
    forall q, l, r, m | 0 <= q < |after| && 0 <= l < |after[q]| && 0 <= r < |after| && 0 <= m < |after[r]|
                        && after[q][l].id == after[r][m].id
      ensures q == r && l == m
    {
      var l', m' := if q == p && l >= k then l + 1 else l, if r == p && m >= k then m + 1 else m;
      assert fifos[q][l'].id == fifos[r][m'].id;
    }
  }

  lemma DropKeepsInv<J>(st: State<J>, p: nat, k: nat)
    requires Inv(st) && p < |st.fifos| && k < |st.fifos[p]|
    ensures Inv(DropFrom(st, p, k))
  {
    DroppingKeepsDistinct(st.fifos, p, k);
  }

  ghost function Assigned<J>(st: State<J>, j: J, id: nat): State<J>
    requires j in st.judges
  {
    st.(judges := st.judges[j := st.judges[j].(working := Some(id))], running := st.running[id := j])
  }

  lemma AssignInOnePlace<J>(st: State<J>, j: J, id: nat)
    requires InOnePlace(st) && j in st.judges && st.judges[j].working.None? && id !in st.running
    requires forall p, k :: 0 <= p < |st.fifos| && 0 <= k < |st.fifos[p]| ==> st.fifos[p][k].id != id
    ensures InOnePlace(Assigned(st, j, id))
  {
    hide DistinctIds;
  }

  /** A judge gets a submission that is nowhere else. */
  lemma AssignKeepsInv<J>(st: State<J>, j: J, id: nat)
    requires Inv(st) && j in st.judges && st.judges[j].working.None? && id !in st.running
    requires forall p, k :: 0 <= p < |st.fifos| && 0 <= k < |st.fifos[p]| ==> st.fifos[p][k].id != id
    ensures Inv(Assigned(st, j, id)) && SameTeam(st, Assigned(st, j, id))
  {
    hide InOnePlace, MinTier, Tiers;
    SameTeamSameTiers(st, Assigned(st, j, id));
    AssignInOnePlace(st, j, id);
  }

  lemma TakeKeepsInv<J>(st: State<J>, j: J, p: nat, k: nat)
    requires Inv(st) && j in st.judges && st.judges[j].working.None?
    requires p < |st.fifos| && k < |st.fifos[p]|
    ensures Inv(Take(st, j, p, k)) && SameTeam(st, Take(st, j, p, k))
  {
    hide DistinctIds, Without, MinTier, Tiers;
    DropKeepsInv(st, p, k);
    DroppingKeepsDistinct(st.fifos, p, k);
    AssignKeepsInv(DropFrom(st, p, k), j, st.fifos[p][k].id);
  }

  /** Of j and the others after a judge became free: at most j got something. */
  lemma HandleFreeKeepsInv<J>(st: State<J>, j: J)
    requires Inv(st) && j in st.judges && st.judges[j].working.None?
    ensures Inv(HandleFree(st, j)) && SameTeam(st, HandleFree(st, j))
    ensures forall i :: i in st.judges && i != j ==> HandleFree(st, j).judges[i] == st.judges[i]
  {
    if st.minTier.Some? && st.judges[j].tier <= st.minTier.value {
      match Pick(st.fifos, st.judges[j], ShouldReserve(st))
      case None =>
      case Some(at) => TakeKeepsInv(st, j, at.0, at.1);
    }
  }

  lemma {:induction false} HandleAllKeepsInv<J>(st: State<J>, order: seq<J>)
    requires Inv(st) && forall j :: j in order ==> j in st.judges
    ensures Inv(HandleAll(st, order)) && SameTeam(st, HandleAll(st, order))
    decreases |order|
  {
    if order != [] {
      var j := order[0];
      var st' := st;
      if st.judges[j].working.None? {
        HandleFreeKeepsInv(st, j);
        st' := HandleFree(st, j);
      }
      HandleAllKeepsInv(st', order[1..]);
    }
  }

  // ------------------------------------------------------------------------------------------------- steps

  datatype Step<J> =
    | Arrive(s: Sub, p: nat, choice: Option<J>)
    | Done(j: J, id: nat)
    | Join(j: J, w: Worker, order: seq<J>)
    | Leave(j: J, order: seq<J>, only: Option<J>)
    | Drop(id: nat)
    | Learn(j: J, problems: set<string>)
    | Flag(name: string, disabled: bool, order: seq<J>)

  /**
   Nobody joins twice.  Judges are trusted to report done only the submission they were sent: the bridge does not check
   it, and DoneKeepsInvIff says that nothing less is enough.
   */
  ghost predicate Legal<J>(st: State<J>, e: Step<J>) {
    match e
    case Arrive(s, p, choice) => p < PRIORITIES && GoodChoice(st, s, p, choice)
    case Done(j, id) => j in st.judges && st.judges[j].working == Some(id)
    case Join(j, w, order) => j !in st.judges && w.working.None? && GoodOrder(Joined(st, j, w), order)
    case Leave(j, order, only) =>
      j in st.judges && GoodOrder(Gone(st, j), order) && IsOnly(UpdateMinTier(Gone(st, j), order), only)
    case Drop(id) => true
    case Learn(j, problems) => j in st.judges
    case Flag(name, disabled, order) => GoodOrder(Flagged(st, name, disabled), order)
  }

  ghost predicate Next<J>(st: State<J>, e: Step<J>, st': State<J>)
    requires |st.fifos| == PRIORITIES && Legal(st, e)
  {
    match e
    case Arrive(s, p, choice) => st' == Accept(st, s, p, choice)
    case Done(j, id) => st' == OnJudgeFree(st, j, id)
    case Join(j, w, order) => st' == Register(st, j, w, order)
    case Leave(j, order, only) => st' == Remove(st, j, order, only)
    case Drop(id) => IsAbort(st, id, st')
    case Learn(j, problems) => st' == UpdateProblems(st, j, problems)
    case Flag(name, disabled, order) => st' == UpdateDisabled(st, name, disabled, order)
  }

  lemma NewcomerDoesNotRaise<J>(st: State<J>, j: J, w: Worker)
    requires Inv(st) && j !in st.judges
    ensures !TierRaised(Joined(st, j, w))
    ensures MinTier(Joined(st, j, w).judges).Some? && MinTier(Joined(st, j, w).judges) != st.minTier ==>
              !w.disabled && MinTier(Joined(st, j, w).judges) == Some(w.tier) &&
              (st.minTier.Some? ==> w.tier < st.minTier.value)
  {
    var js := Joined(st, j, w).judges;
    forall x | x in Tiers(st.judges) ensures x in Tiers(js) {
      var i :| i in st.judges && !st.judges[i].disabled && st.judges[i].tier == x;
      assert i in js && js[i] == st.judges[i];
    }
    forall x | x in Tiers(js) ensures x in Tiers(st.judges) || (!w.disabled && x == w.tier) {
      var i :| i in js && !js[i].disabled && js[i].tier == x;
      assert i != j ==> i in st.judges && js[i] == st.judges[i];
    }
  }

  lemma UpdateKeepsInv<J>(st: State<J>, order: seq<J>)
    requires |st.fifos| == PRIORITIES && InOnePlace(st) && GoodOrder(st, order)
    ensures Inv(UpdateMinTier(st, order)) && SameTeam(st.(minTier := MinTier(st.judges)), UpdateMinTier(st, order))
  {
    HandleAllKeepsInv(st.(minTier := MinTier(st.judges)), order);
  }

  lemma JoinKeepsInv<J>(st: State<J>, j: J, w: Worker, order: seq<J>)
    requires Inv(st) && Legal(st, Join(j, w, order))
    ensures Inv(Register(st, j, w, order))
  {
    NewcomerDoesNotRaise(st, j, w);
    var joined := Joined(st, j, w);
    assert InOnePlace(joined);
    UpdateKeepsInv(joined, order);
    assert order == [];
    HandleFreeKeepsInv(UpdateMinTier(joined, order), j);
  }

  lemma GoneInOnePlace<J>(st: State<J>, j: J)
    requires Inv(st) && j in st.judges
    ensures |Gone(st, j).fifos| == PRIORITIES && Gone(st, j).fifos == st.fifos && InOnePlace(Gone(st, j))
  {
    hide DistinctIds, MinTier, Tiers;
  }

  lemma LeaveKeepsInv<J>(st: State<J>, j: J, order: seq<J>, only: Option<J>)
    requires Inv(st) && Legal(st, Leave(j, order, only))
    ensures Inv(Remove(st, j, order, only))
  {
    hide Gone, InOnePlace, MinTier, HandleFree, HandleAll;
    var gone := Gone(st, j);
    GoneInOnePlace(st, j);
    UpdateKeepsInv(gone, order);
    var st' := UpdateMinTier(gone, order);
    if only.Some? && st'.judges[only.value].working.None? {
      HandleFreeKeepsInv(st', only.value);
    }
  }

  lemma DoneKeepsInv<J>(st: State<J>, j: J, id: nat)
    requires Inv(st) && Legal(st, Done(j, id))
    ensures Inv(OnJudgeFree(st, j, id))
  {
    var st' := st.(running := st.running - {id}, judges := st.judges[j := st.judges[j].(working := None)]);
    assert SameTeam(st, st');
    SameTeamSameTiers(st, st');
    assert InOnePlace(st');
    HandleFreeKeepsInv(st', j);
  }

  /** A report that a submission is done keeps the books exactly when it comes from the judge working on it. */
  lemma DoneKeepsInvIff<J>(st: State<J>, j: J, id: nat)
    requires Inv(st) && j in st.judges && id in st.running
    ensures Inv(OnJudgeFree(st, j, id)) <==> st.judges[j].working == Some(id)
  {
    if st.judges[j].working == Some(id) {
      DoneKeepsInv(st, j, id);
    } else {
      var freed := st.(running := st.running - {id}, judges := st.judges[j := st.judges[j].(working := None)]);
      var holder := st.running[id];
      HandleFreeStarts(freed, j, id, holder);
    }
  }

  /** Offering work to a judge starts nothing but what was queued, and no other judge notices. */
  lemma HandleFreeStarts<J>(st: State<J>, j: J, id: nat, other: J)
    requires j in st.judges && other in st.judges && other != j && id !in st.running
    requires forall p, k :: 0 <= p < |st.fifos| && 0 <= k < |st.fifos[p]| ==> st.fifos[p][k].id != id
    ensures id !in HandleFree(st, j).running
    ensures other in HandleFree(st, j).judges && HandleFree(st, j).judges[other] == st.judges[other]
  {}

  lemma ArriveKeepsInv<J>(st: State<J>, s: Sub, p: nat, choice: Option<J>)
    requires Inv(st) && Legal(st, Arrive(s, p, choice))
    ensures Inv(Accept(st, s, p, choice))
  {
    hide DistinctIds, MinTier, Tiers, SameTeam;
    if s.id !in st.running && !Queued(st, s.id) {
      if choice.Some? { AssignKeepsInv(st, choice.value, s.id); } else { EnqueueKeepsInv(st, s, p); }
    }
  }

  lemma EnqueueKeepsInv<J>(st: State<J>, s: Sub, p: nat)
    requires Inv(st) && p < PRIORITIES && s.id !in st.running && !Queued(st, s.id)
    ensures Inv(st.(fifos := st.fifos[p := st.fifos[p] + [s]]))
  {
    hide MinTier, Tiers;
  }

  lemma LearnKeepsInv<J>(st: State<J>, j: J, problems: set<string>)
    requires Inv(st) && Legal(st, Learn(j, problems))
    ensures Inv(UpdateProblems(st, j, problems))
  {
    var st' := st.(judges := st.judges[j := st.judges[j].(problems := problems)]);
    assert Tiers(st'.judges) == Tiers(st.judges) by {
      forall x | x in Tiers(st.judges) ensures x in Tiers(st'.judges) {
        var i :| i in st.judges && !st.judges[i].disabled && st.judges[i].tier == x;
        assert !st'.judges[i].disabled && st'.judges[i].tier == x;
      }
    }
    assert InOnePlace(st');
    if st.judges[j].working.None? { HandleFreeKeepsInv(st', j); }
  }

  lemma FlagKeepsInv<J>(st: State<J>, name: string, disabled: bool, order: seq<J>)
    requires Inv(st) && Legal(st, Flag(name, disabled, order))
    ensures Inv(UpdateDisabled(st, name, disabled, order))
  {
    assert InOnePlace(Flagged(st, name, disabled));
    UpdateKeepsInv(Flagged(st, name, disabled), order);
  }

  /** Every step keeps the books: one place for each submission, workers in agreement, the tier up to date. */
  lemma StepKeepsInv<J>(st: State<J>, e: Step<J>, st': State<J>)
    requires Inv(st) && Legal(st, e) && Next(st, e, st')
    ensures Inv(st')
  {
    hide Inv, Legal, Accept, OnJudgeFree, Register, Remove, UpdateProblems, UpdateDisabled;
    match e
    case Arrive(s, p, choice) => ArriveKeepsInv(st, s, p, choice);
    case Done(j, id) => DoneKeepsInv(st, j, id);
    case Join(j, w, order) => JoinKeepsInv(st, j, w, order);
    case Leave(j, order, only) => LeaveKeepsInv(st, j, order, only);
    case Drop(id) =>
      if id !in st.running && Queued(st, id) {
        var p, k :| 0 <= p < |st.fifos| && 0 <= k < |st.fifos[p]| && st.fifos[p][k].id == id &&
          st' == DropFrom(st, p, k);
        DropKeepsInv(st, p, k);
      }
    case Learn(j, problems) => LearnKeepsInv(st, j, problems);
    case Flag(name, disabled, order) => FlagKeepsInv(st, name, disabled, order);
  }
}
