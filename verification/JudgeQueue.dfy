/**
 What the judge dispatcher (judge/bridge/judge_list.py) promises, without its linked list: four queues in order of
 arrival, the judges, who is judging what, and the rules of dispatch.  JudgeList.dfy shows that the class does this.
 */
module JudgeQueue {
  import opened Common

  const PRIORITIES: nat := 4
  const REJUDGE: nat := 2

  datatype Sub = Sub(id: nat, problem: string, language: string, source: string, judgeId: Option<string>)

  datatype Worker = Worker(name: string, tier: int, disabled: bool, problems: set<string>, executors: set<string>,
                           load: real, working: Option<nat>)
  {
    predicate CanJudge(s: Sub) {
      (s.problem in problems || "ct_" <= s.problem) && s.language in executors &&
      ((s.judgeId.None? && !disabled) || s.judgeId == Some(name))
    }
  }

  datatype State<J(==)> = State(fifos: seq<seq<Sub>>, judges: map<J, Worker>, running: map<nat, J>,
                                minTier: Option<int>)

  ghost function Start<J>(): State<J> {
    State([[], [], [], []], map[], map[], None)
  }

  // ------------------------------------------------------------------------------------------------- tiers

  ghost function Tiers<J>(judges: map<J, Worker>): set<int> {
    set j | j in judges && !judges[j].disabled :: judges[j].tier
  }

  ghost function Any(s: set<int>): (x: int)
    requires s != {}
    ensures x in s
  {
    EmptyWhenNone(s);
    var x :| x in s; x
  }

  lemma EmptyWhenNone(s: set<int>)
    ensures (forall x :: x !in s) ==> s == {}
  {
    if forall x :: x !in s { assert s == {}; }
  }

  ghost function Least(s: set<int>): (m: int)
    requires s != {}
    ensures m in s && forall x :: x in s ==> m <= x
  {
    var x := Any(s);
    if s == {x} then x
    else
      assert s - {x} != {} by { assert s == {x} + (s - {x}); }
      var m := Least(s - {x});
      assert forall y :: y in s ==> y == x || y in s - {x};
      if x <= m then x else m
  }

  ghost function MinTier<J>(judges: map<J, Worker>): Option<int> {
    if Tiers(judges) == {} then None else Some(Least(Tiers(judges)))
  }

  ghost function Current<J>(st: State<J>): set<J> {
    set j | j in st.judges && Some(st.judges[j].tier) == st.minTier && !st.judges[j].disabled
  }

  ghost function Free<J>(st: State<J>): set<J> {
    set j | j in Current(st) && st.judges[j].working.None?
  }

  ghost predicate ShouldReserve<J>(st: State<J>) {
    |Current(st)| > 1 && |Free(st)| <= 1
  }

  // ------------------------------------------------------------------------------------- a judge becomes free

  function FirstFit(fifo: seq<Sub>, w: Worker): (k: nat)
    ensures k <= |fifo|
    ensures k < |fifo| ==> w.CanJudge(fifo[k])
    ensures forall i :: 0 <= i < k ==> !w.CanJudge(fifo[i])
  {
    if fifo == [] || w.CanJudge(fifo[0]) then 0 else 1 + FirstFit(fifo[1..], w)
  }

  /** The first submission, by priority and then by arrival, that `w` can judge; with a judge reserved, no rejudges. */
  function Pick(fifos: seq<seq<Sub>>, w: Worker, reserve: bool, from: nat := 0): (r: Option<(nat, nat)>)
    ensures r.Some? ==> from <= r.value.0 < |fifos| && r.value.1 < |fifos[r.value.0]|
                        && w.CanJudge(fifos[r.value.0][r.value.1])
                        && (reserve ==> r.value.0 < REJUDGE)
                        && (forall k :: 0 <= k < r.value.1 ==> !w.CanJudge(fifos[r.value.0][k]))
                        && (forall p, k :: from <= p < r.value.0 && 0 <= k < |fifos[p]| ==> !w.CanJudge(fifos[p][k]))
    ensures r.None? ==> forall p, k :: from <= p < |fifos| && 0 <= k < |fifos[p]| && (reserve ==> p < REJUDGE)
                          ==> !w.CanJudge(fifos[p][k])
    decreases |fifos| - from
  {
    if from >= |fifos| || (reserve && from >= REJUDGE) then None
    else
      var k := FirstFit(fifos[from], w);
      if k < |fifos[from]| then Some((from, k)) else Pick(fifos, w, reserve, from + 1)
  }

  function Without(fifo: seq<Sub>, k: nat): seq<Sub>
    requires k < |fifo|
  {
    fifo[..k] + fifo[k + 1..]
  }

  /** The queued submission at (p, k) goes to judge j. */
  ghost function Take<J>(st: State<J>, j: J, p: nat, k: nat): State<J>
    requires j in st.judges && p < |st.fifos| && k < |st.fifos[p]|
  {
    var s := st.fifos[p][k];
    State(st.fifos[p := Without(st.fifos[p], k)],
          st.judges[j := st.judges[j].(working := Some(s.id))],
          st.running[s.id := j],
          st.minTier)
  }

  /** With no enabled judge at all the comparison of tiers raises an error, and nothing changes either. */
  ghost function HandleFree<J>(st: State<J>, j: J): (st': State<J>)
    requires j in st.judges
    ensures st'.judges.Keys == st.judges.Keys
  {
    if st.minTier.None? || st.judges[j].tier > st.minTier.value then st
    else
      match Pick(st.fifos, st.judges[j], ShouldReserve(st))
      case None => st
      case Some(at) => Take(st, j, at.0, at.1)
  }

  ghost function HandleAll<J>(st: State<J>, order: seq<J>): (st': State<J>)
    requires forall j :: j in order ==> j in st.judges
    ensures st'.judges.Keys == st.judges.Keys
    decreases |order|
  {
    if order == [] then st
    else
      var j := order[0];
      var st' := if st.judges[j].working.None? then HandleFree(st, j) else st;
      HandleAll(st', order[1..])
  }

  // --------------------------------------------------------------------------------------------- the operations

  ghost predicate Queued<J>(st: State<J>, id: nat) {
    exists p, k :: 0 <= p < |st.fifos| && 0 <= k < |st.fifos[p]| && st.fifos[p][k].id == id
  }

  ghost function Candidates<J>(st: State<J>, s: Sub): set<J> {
    set j | j in Current(st) && st.judges[j].CanJudge(s)
  }

  /** The judges a new submission may go to at once; the last free one is kept from rejudges. */
  ghost function Available<J>(st: State<J>, s: Sub, p: nat): set<J> {
    var available := set j | j in Candidates(st, s) && st.judges[j].working.None?;
    if |Candidates(st, s)| > 1 && |available| == 1 && p >= REJUDGE then {} else available
  }

  ghost predicate GoodChoice<J>(st: State<J>, s: Sub, p: nat, choice: Option<J>) {
    if s.id in st.running || Queued(st, s.id) || Available(st, s, p) == {} then choice.None?
    else choice.Some? && choice.value in Available(st, s, p)
         && forall j :: j in Available(st, s, p) ==> st.judges[choice.value].load <= st.judges[j].load
  }

  /** judge(): a submission arrives with a priority. */
  ghost function Accept<J>(st: State<J>, s: Sub, p: nat, choice: Option<J>): State<J>
    requires p < |st.fifos| && GoodChoice(st, s, p, choice)
  {
    if s.id in st.running || Queued(st, s.id) then st
    else if choice.Some? then
      st.(running := st.running[s.id := choice.value],
          judges := st.judges[choice.value := st.judges[choice.value].(working := Some(s.id))])
    else st.(fifos := st.fifos[p := st.fifos[p] + [s]])
  }

  /** An order in which the judges of the current tier may be visited. */
  ghost predicate Visits<J>(order: seq<J>, judges: set<J>) {
    (forall j :: j in order ==> j in judges) && (forall j :: j in judges ==> j in order) &&
    (forall i, k :: 0 <= i < k < |order| ==> order[i] != order[k])
  }

  ghost predicate TierRaised<J>(st: State<J>) {
    st.minTier.Some? && MinTier(st.judges).Some? && MinTier(st.judges).value > st.minTier.value
  }

  ghost predicate GoodOrder<J>(st: State<J>, order: seq<J>) {
    if TierRaised(st) then Visits(order, Current(st.(minTier := MinTier(st.judges)))) else order == []
  }

  /** _update_min_tier(): when the tier goes up, its judges are all treated as free. */
  ghost function UpdateMinTier<J>(st: State<J>, order: seq<J>): State<J>
    requires GoodOrder(st, order)
  {
    HandleAll(st.(minTier := MinTier(st.judges)), order)
  }

  ghost function Joined<J>(st: State<J>, j: J, w: Worker): State<J> {
    st.(judges := st.judges[j := w])
  }

  ghost function Register<J>(st: State<J>, j: J, w: Worker, order: seq<J>): State<J>
    requires GoodOrder(Joined(st, j, w), order)
  {
    HandleFree(UpdateMinTier(Joined(st, j, w), order), j)
  }

  ghost function Gone<J>(st: State<J>, j: J): State<J> {
    st.(judges := st.judges - {j},
        running := if j in st.judges && st.judges[j].working.Some? then st.running - {st.judges[j].working.value}
                    else st.running)
  }

  /** With one judge left in the tier there is nothing to reserve any more. */
  ghost function HandleOnly<J>(st: State<J>, only: Option<J>): State<J>
    requires only.Some? ==> only.value in st.judges
  {
    if only.Some? && st.judges[only.value].working.None? then HandleFree(st, only.value) else st
  }

  ghost predicate IsOnly<J>(st: State<J>, only: Option<J>) {
    if |Current(st)| == 1 then only.Some? && only.value in Current(st) else only.None?
  }

  ghost function Remove<J>(st: State<J>, j: J, order: seq<J>, only: Option<J>): State<J>
    requires GoodOrder(Gone(st, j), order)
    requires IsOnly(UpdateMinTier(Gone(st, j), order), only)
  {
    HandleOnly(UpdateMinTier(Gone(st, j), order), only)
  }

  /** on_judge_free(): an unknown submission raises an error before anything changes. */
  ghost function OnJudgeFree<J>(st: State<J>, j: J, id: nat): State<J>
    requires j in st.judges
  {
    if id !in st.running then st
    else
      HandleFree(st.(running := st.running - {id}, judges := st.judges[j := st.judges[j].(working := None)]), j)
  }

  ghost function DropFrom<J>(st: State<J>, p: nat, k: nat): State<J>
    requires p < |st.fifos| && k < |st.fifos[p]|
  {
    st.(fifos := st.fifos[p := Without(st.fifos[p], k)])
  }

  /** abort(): a submission being judged is told to stop, a queued one is dropped. */
  ghost predicate IsAbort<J>(st: State<J>, id: nat, st': State<J>) {
    if id in st.running || !Queued(st, id) then st' == st
    else
      exists p, k :: 0 <= p < |st.fifos| && 0 <= k < |st.fifos[p]| && st.fifos[p][k].id == id &&
        st' == DropFrom(st, p, k)
  }

  ghost function UpdateProblems<J>(st: State<J>, j: J, problems: set<string>): State<J>
    requires j in st.judges
  {
    var st' := st.(judges := st.judges[j := st.judges[j].(problems := problems)]);
    if st.judges[j].working.None? then HandleFree(st', j) else st'
  }

  ghost function Flagged<J>(st: State<J>, name: string, disabled: bool): State<J> {
    st.(judges := map j | j in st.judges ::
          if st.judges[j].name == name then st.judges[j].(disabled := disabled) else st.judges[j])
  }

  ghost function UpdateDisabled<J>(st: State<J>, name: string, disabled: bool, order: seq<J>): State<J>
    requires GoodOrder(Flagged(st, name, disabled), order)
  {
    UpdateMinTier(Flagged(st, name, disabled), order)
  }
}
