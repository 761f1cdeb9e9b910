/**
 The judge dispatcher (judge/bridge/judge_list.py): one linked list with four markers, an index from ids to nodes, and
 the judges.  Every method does to the four queues of JudgeQueue what its specification there says.
 */
module JudgeList {
  import opened Common
  import opened JudgeQueue
  import opened JudgeLayout
  import opened JudgeRuns
  import opened Dllist

  /** The side of a connected judge the dispatcher uses (judge/bridge/judge_handler.py). */
  class Judge {
    const name: string
    const tier: int
    const executors: set<string>
    var disabled: bool
    var problems: set<string>
    var load: real
    var working: Option<nat>

    ghost function View(): Worker
      reads this
    {
      Worker(name, tier, disabled, problems, executors, load, working)
    }

    predicate CanJudge(s: Sub)
      reads this
      ensures CanJudge(s) == View().CanJudge(s)
    {
      (s.problem in problems || "ct_" <= s.problem) && s.language in executors &&
      ((s.judgeId.None? && !disabled) || s.judgeId == Some(name))
    }

    method Submit(s: Sub)
      modifies this`working
      ensures working == Some(s.id)
    {
      working := Some(s.id);
    }
  }

  class JudgeList {
    const queue: List<Item>
    var priority: seq<Node<Item>>
    var judges: set<Judge>
    var nodeMap: map<nat, Node<Item>>
    var submissionMap: map<nat, Judge>
    var minTier: Option<int>
    ghost var fifos: seq<seq<Sub>>

    ghost function Judges(): map<Judge, Worker>
      reads this`judges, judges
    {
      map j | j in judges :: j.View()
    }

    ghost function View(): State<Judge>
      reads this, judges
    {
      State(fifos, Judges(), submissionMap, minTier)
    }

    /** The list is the four queues in a line; the markers and the index point where they should. */
    ghost predicate Valid()
      reads this`fifos, this`priority, this`nodeMap, queue, queue.nodes
    {
      queue.Valid() && Arranged(queue.nodes, fifos, priority, nodeMap)
    }

    constructor ()
      ensures Valid() && View() == Start()
    {
      hide List.Valid, Arranged;
      queue := new List();
      priority, judges, nodeMap, submissionMap, minTier := [], {}, map[], map[], None;
      fifos := [];
      new;
      for i := 0 to PRIORITIES
        invariant queue.Valid() && fresh(queue) && fresh(queue.nodes)
        invariant |queue.nodes| == i && priority == queue.nodes
        invariant forall k :: 0 <= k < i ==> queue.nodes[k].value == Marker(k)
        invariant judges == {} && nodeMap == map[] && submissionMap == map[] && minTier == None
      {
        var node := queue.Append(Marker(i));
        priority := priority + [node];
      }
      fifos := [[], [], [], []];
      EmptyArranged(queue.nodes);
      assert Judges() == map[];
    }

    /** queue.insert: a submission joins the queue of its priority, right before the marker. */
    method Enqueue(s: Sub, p: nat)
      requires Valid() && p < PRIORITIES && !QueuedIn(fifos, s.id)
      modifies this`nodeMap, this`fifos, queue, queue.NodeSet()
      ensures Valid() && fifos == old(fifos)[p := old(fifos)[p] + [s]]
    {
      hide Arranged, Offset, List.Valid, List.NodeSet, Inserted;
      MarkerNode(p);
      ghost var m := Offset(fifos, 0, p) + |fifos[p]|;
      var node := queue.Insert(Entry(s), priority[p], m);
      ArrangedInsert(old(queue.nodes), fifos, priority, nodeMap, p, s, node);
      nodeMap := nodeMap[s.id := node];
      fifos := fifos[p := fifos[p] + [s]];
    }

    lemma NodesDistinct()
      requires Valid()
      ensures Distinct(queue.nodes) && |fifos| == PRIORITIES
    {}

    lemma MarkerNode(p: nat)
      requires Valid() && p < PRIORITIES
      ensures |fifos| == |priority| == PRIORITIES
      ensures Offset(fifos, 0, p) + |fifos[p]| < |queue.nodes| &&
              queue.nodes[Offset(fifos, 0, p) + |fifos[p]|] == priority[p]
    {
      assert MarkerAt(queue.nodes, fifos, priority, p);
    }

    /** queue.remove and del node_map[id]: the submission at place k of queue p is out. */
    method Unlink(node: Node<Item>, id: nat, ghost p: nat, ghost k: nat)
      requires Valid() && p < PRIORITIES && k < |fifos[p]| && fifos[p][k].id == id
      requires Offset(fifos, 0, p) + k < |queue.nodes| && queue.nodes[Offset(fifos, 0, p) + k] == node
      modifies this`nodeMap, this`fifos, queue, queue.NodeSet()
      ensures Valid() && fifos == old(fifos)[p := Without(old(fifos)[p], k)]
      ensures queue.NodeSet() <= old(queue.NodeSet())
    {
      hide Arranged, Offset, List.Valid, List.NodeSet, Distinct, Removed, Without;
      NodesDistinct();
      ArrangedRemove(queue.nodes, fifos, priority, nodeMap, p, k);
      queue.Remove(node, Offset(fifos, 0, p) + k);
      nodeMap := nodeMap - {id};
      fifos := fifos[p := Without(fifos[p], k)];
    }

    function CurrentTierJudges(): (js: set<Judge>)
      reads this, judges
      ensures js == Current(View())
    {
      set j | j in judges && Some(j.tier) == minTier && !j.disabled
    }

    method ShouldReserveJudge() returns (reserve: bool)
      ensures reserve == ShouldReserve(View())
    {
      var js := CurrentTierJudges();
      if |js| <= 1 {
        return false;
      }
      var free := set j | j in js && j.working.None?;
      assert free == Free(View());
      return |free| <= 1;
    }

    /** `node` is at place k of queue p, or past the end. */
    ghost predicate Cursor(node: Node?<Item>, p: nat, k: nat)
      requires |fifos| == PRIORITIES
      reads this, queue
    {
      p <= PRIORITIES && (if p < PRIORITIES then k <= |fifos[p]| else k == 0) &&
      var i := Offset(fifos, 0, p) + k;
      i <= |queue.nodes| && node == if i < |queue.nodes| then queue.nodes[i] else null
    }

    ghost function Place(p: nat, k: nat): nat
      reads this
    {
      if p <= |fifos| then Offset(fifos, 0, p) + k else 0
    }

    lemma CursorStarts()
      requires Valid()
      ensures |fifos| == PRIORITIES && Cursor(queue.first, 0, 0)
    {}

    lemma CursorSees(node: Node<Item>, p: nat, k: nat)
      requires Valid() && Cursor(node, p, k)
      ensures p < PRIORITIES && k <= |fifos[p]| && node in queue.nodes
      ensures Offset(fifos, 0, p) + k < |queue.nodes| && queue.nodes[Offset(fifos, 0, p) + k] == node
      ensures node.value == if k < |fifos[p]| then Entry(fifos[p][k]) else Marker(p)
    {
      hide Layout, Offset, Indexed, List.Valid;
      CursorStarts();
      LayoutSize(fifos, 0);
      LayoutAt(fifos, 0, p, k);
    }

    lemma CursorMoves(node: Node<Item>, p: nat, k: nat)
      requires Valid() && Cursor(node, p, k)
      ensures p < PRIORITIES && if k < |fifos[p]| then Cursor(node.next, p, k + 1) else Cursor(node.next, p + 1, 0)
      ensures Place(p, k) < |queue.nodes| && Place(p, k) < if k < |fifos[p]| then Place(p, k + 1) else Place(p + 1, 0)
    {
      CursorSees(node, p, k);
      OffsetStep(fifos, 0, p);
      var i := Offset(fifos, 0, p) + k;
      assert queue.nodes[i].next == if i == |queue.nodes| - 1 then null else queue.nodes[i + 1];
    }

    lemma CursorEnds(p: nat, k: nat)
      requires Valid() && Cursor(null, p, k)
      ensures p == PRIORITIES
    {
      if p < PRIORITIES { LayoutAt(fifos, 0, p, k); }
    }

    /** Nothing before place k of queue p is for `w`. */
    ghost predicate NothingYet(w: Worker, p: nat, k: nat)
      reads this
    {
      (forall q, l :: 0 <= q < p && q < |fifos| && 0 <= l < |fifos[q]| ==> !w.CanJudge(fifos[q][l])) &&
      (p < |fifos| ==> forall l :: 0 <= l < k && l < |fifos[p]| ==> !w.CanJudge(fifos[p][l]))
    }

    lemma NothingNext(w: Worker, p: nat, k: nat)
      requires NothingYet(w, p, k) && p < |fifos| && k <= |fifos[p]|
      ensures if k == |fifos[p]| then NothingYet(w, p + 1, 0) else w.CanJudge(fifos[p][k]) || NothingYet(w, p, k + 1)
    {}

    lemma FoundIs(w: Worker, reserve: bool, p: nat, k: nat)
      requires NothingYet(w, p, k) && p < |fifos| && k < |fifos[p]| && w.CanJudge(fifos[p][k])
      requires reserve ==> p < REJUDGE
      ensures Pick(fifos, w, reserve) == Some((p, k))
    {
      PickIs(fifos, w, reserve, p, k);
    }

    lemma NoneIs(w: Worker, reserve: bool, p: nat, k: nat)
      requires NothingYet(w, p, k) && (p >= |fifos| || (reserve && p >= REJUDGE))
      ensures Pick(fifos, w, reserve) == None
    {
      PickNothing(fifos, w, reserve);
    }

    lemma NothingFirst(w: Worker)
      ensures NothingYet(w, 0, 0)
    {}

    /** The walk of the list, from the front: the first submission the judge can take, unless it has to be kept. */
    method FirstFor(judge: Judge) returns (found: Node?<Item>, ghost p: nat, ghost k: nat)
      requires Valid() && judge in judges
      ensures |fifos| == PRIORITIES
      ensures found == null ==> Pick(fifos, judge.View(), ShouldReserve(View())) == None
      ensures found != null ==> Pick(fifos, judge.View(), ShouldReserve(View())) == Some((p, k)) && Cursor(found, p, k)
    {
      hide Offset, Pick, Cursor, Place, ShouldReserve, Valid, NothingYet;
      hide View, Judge.View, Worker.CanJudge, Judge.CanJudge;
      ghost var reserve, w := ShouldReserve(View()), judge.View();
      CursorStarts();
      NothingFirst(w);
      var node, priority' := queue.first, 0;
      p, k := 0, 0;
      while node != null
        invariant p == priority' && Cursor(node, p, k) && NothingYet(w, p, k)
        decreases |queue.nodes| - Place(p, k)
      {
        CursorSees(node, p, k);
        CursorMoves(node, p, k);
        NothingNext(w, p, k);
        match node.value {
        case Marker(q) =>
          priority' := q + 1;
          p, k := q + 1, 0;
        case Entry(s) =>
          if priority' >= REJUDGE {
            var reserved := ShouldReserveJudge();
            if reserved {
              NoneIs(w, reserve, p, k);
              return null, p, k;
            }
          }
          if judge.CanJudge(s) {
            FoundIs(w, reserve, p, k);
            return node, p, k;
          }
          k := k + 1;
        }
        node := node.next;
      }
      CursorEnds(p, k);
      NoneIs(w, reserve, p, k);
      return null, p, k;
    }

    method Give(judge: Judge, s: Sub)
      requires judge in judges
      modifies this`submissionMap, judge`working
      ensures submissionMap == old(submissionMap)[s.id := judge]
      ensures Judges() == old(Judges())[judge := old(judge.View()).(working := Some(s.id))]
    {
      submissionMap := submissionMap[s.id := judge];
      judge.Submit(s);
    }

    /** The judge gets the submission of this node, which leaves the queue. */
    method DispatchQueued(judge: Judge, node: Node<Item>, s: Sub, ghost p: nat, ghost k: nat)
      requires Valid() && judge in judges && p < PRIORITIES && k < |fifos[p]| && fifos[p][k] == s
      requires Offset(fifos, 0, p) + k < |queue.nodes| && queue.nodes[Offset(fifos, 0, p) + k] == node
      modifies this`nodeMap, this`submissionMap, this`fifos, queue, queue.NodeSet(), judge`working
      ensures Valid() && View() == Take(old(View()), judge, p, k)
      ensures queue.NodeSet() <= old(queue.NodeSet())
    {
      hide Valid, Offset, List.NodeSet, Without;
      Give(judge, s);
      Unlink(node, s.id, p, k);
    }

    /** Give a free judge the first submission it can take. An error is raised when no judge at all is enabled. */
    method HandleFreeJudge(judge: Judge) returns (raised: bool)
      requires Valid() && judge in judges
      modifies this`nodeMap, this`submissionMap, this`fifos, queue, queue.NodeSet(), judge`working
      ensures Valid() && View() == HandleFree(old(View()), judge) && raised == old(minTier).None?
      ensures queue.NodeSet() <= old(queue.NodeSet())
    {
      if minTier.None? {
        return true;
      }
      if judge.tier > minTier.value {
        return false;
      }
      var node, p, k := FirstFor(judge);
      if node != null {
        CursorSees(node, p, k);
        DispatchQueued(judge, node, node.value.sub, p, k);
      }
      return false;
    }

    /** The least tier of the enabled judges, if any. */
    method LeastTier() returns (tier: Option<int>)
      ensures tier == MinTier(Judges())
    {
      tier := None;
      var rest := judges;
      while rest != {}
        invariant rest <= judges
        invariant tier.None? <==> forall j :: j in judges - rest ==> j.disabled
        invariant tier.Some? ==> tier.value in Tiers(Judges())
        invariant tier.Some? ==> forall j :: j in judges - rest && !j.disabled ==> tier.value <= j.tier
      {
        var judge :| judge in rest;
        rest := rest - {judge};
        if !judge.disabled {
          assert Judges()[judge].tier in Tiers(Judges());
          tier := Some(if tier.Some? then Min(tier.value, judge.tier) else judge.tier);
        }
      }
      if tier.Some? {
        assert forall x :: x in Tiers(Judges()) ==> tier.value <= x;
      } else {
        assert Tiers(Judges()) == {};
      }
    }

    /** Visit the judges of the current tier, in any order, and treat those not working as just freed. */
    method HandleCurrentTier() returns (ghost order: seq<Judge>)
      requires Valid()
      modifies this`nodeMap, this`submissionMap, this`fifos, queue, queue.NodeSet(), judges
      ensures Valid() && Visits(order, Current(old(View())))
      ensures (forall j :: j in order ==> j in old(View()).judges) && View() == HandleAll(old(View()), order)
      ensures queue.NodeSet() <= old(queue.NodeSet())
    {
      hide Valid, HandleFree, HandleAll;
      ghost var before := View();
      var rest := CurrentTierJudges();
      order := [];
      NothingHandled(before);
      while rest != {}
        invariant Valid() && judges == old(judges) && rest <= judges
        invariant queue.NodeSet() <= old(queue.NodeSet())
        invariant forall j :: j in order ==> j in before.judges
        invariant View() == HandleAll(before, order)
        invariant forall j :: j in Current(before) <==> j in order || j in rest
        invariant forall j :: j in order ==> j !in rest
        invariant forall i, k :: 0 <= i < k < |order| ==> order[i] != order[k]
      {
        var judge :| judge in rest;
        rest := rest - {judge};
        HandleAllNext(before, order, judge);
        if judge.working.None? {
          var raised := HandleFreeJudge(judge);
        }
        order := order + [judge];
      }
    }

    /** _update_min_tier() */
    method UpdateTier() returns (ghost order: seq<Judge>)
      requires Valid()
      modifies this`nodeMap, this`submissionMap, this`fifos, this`minTier, queue, queue.NodeSet(), judges
      ensures Valid() && GoodOrder(old(View()), order) && View() == UpdateMinTier(old(View()), order)
      ensures queue.NodeSet() <= old(queue.NodeSet())
    {
      hide Valid, List.NodeSet, HandleAll, Current, Visits, MinTier, Judges;
      var previous := minTier;
      minTier := LeastTier();
      assert View() == old(View()).(minTier := MinTier(old(View()).judges));
      if previous.Some? && minTier.Some? && minTier.value > previous.value {
        order := HandleCurrentTier();
      } else {
        order := [];
        NothingHandled(View());
      }
    }

    /** register(): an error is raised at the end when no judge at all is enabled. */
    method Register(judge: Judge) returns (raised: bool, ghost order: seq<Judge>)
      requires Valid() && judge !in judges
      modifies this`nodeMap, this`submissionMap, this`fifos, this`minTier, this`judges
      modifies queue, queue.NodeSet(), judges, judge
      ensures Valid() && judge !in old(judges) && GoodOrder(Joined(old(View()), judge, old(judge.View())), order)
      ensures View() == JudgeQueue.Register(old(View()), judge, old(judge.View()), order)
    {
      hide Valid, List.NodeSet, HandleFree, UpdateMinTier, GoodOrder;
      judges := judges + {judge};
      assert View() == Joined(old(View()), judge, old(judge.View()));
      order := UpdateTier();
      raised := HandleFreeJudge(judge);
    }

    /** remove() */
    method Remove(judge: Judge) returns (ghost order: seq<Judge>, ghost only: Option<Judge>)
      requires Valid() && (judge !in judges ==> judge.working.None?)
      modifies this`nodeMap, this`submissionMap, this`fifos, this`minTier, this`judges, queue, queue.NodeSet(), judges
      ensures Valid() && GoodOrder(Gone(old(View()), judge), order)
      ensures IsOnly(UpdateMinTier(Gone(old(View()), judge), order), only)
      ensures View() == JudgeQueue.Remove(old(View()), judge, order, only)
    {
      hide Valid, List.NodeSet, HandleFree, UpdateMinTier, GoodOrder, Current;
      if judge.working.Some? {
        submissionMap := submissionMap - {judge.working.value};
      }
      judges := judges - {judge};
      assert View() == Gone(old(View()), judge);
      order := UpdateTier();
      var currentTier := CurrentTierJudges();
      only := None;
      if |currentTier| == 1 {
        var last :| last in currentTier;
        only := Some(last);
        if last.working.None? {
          var raised := HandleFreeJudge(last);
        }
      }
    }

    /** on_judge_free(): an unknown submission raises an error before anything changes. */
    method OnJudgeFree(judge: Judge, submission: nat) returns (raised: bool)
      requires Valid() && judge in judges
      modifies this`nodeMap, this`submissionMap, this`fifos, queue, queue.NodeSet(), judge
      ensures Valid() && View() == JudgeQueue.OnJudgeFree(old(View()), judge, submission)
      ensures raised == (submission !in old(submissionMap) || old(minTier).None?)
    {
      hide Valid, List.NodeSet, HandleFree;
      if submission !in submissionMap {
        return true;
      }
      submissionMap := submissionMap - {submission};
      judge.working := None;
      assert Judges() == old(Judges())[judge := old(judge.View()).(working := None)];
      raised := HandleFreeJudge(judge);
    }

    /** update_problems(), for a judge that sent its list of problems (on_supported_problems). */
    method OnSupportedProblems(judge: Judge, problems: set<string>)
      requires Valid() && judge in judges
      modifies this`nodeMap, this`submissionMap, this`fifos, queue, queue.NodeSet(), judge
      ensures Valid() && View() == UpdateProblems(old(View()), judge, problems)
    {
      judge.problems := problems;
      assert Judges() == old(Judges())[judge := old(judge.View()).(problems := problems)];
      if judge.working.None? {
        var raised := HandleFreeJudge(judge);
      }
    }

    /** update_disable_judge() */
    method UpdateDisableJudge(name: string, disabled: bool) returns (ghost order: seq<Judge>)
      requires Valid()
      modifies this`nodeMap, this`submissionMap, this`fifos, this`minTier, queue, queue.NodeSet(), judges
      ensures Valid() && GoodOrder(Flagged(old(View()), name, disabled), order)
      ensures View() == UpdateDisabled(old(View()), name, disabled, order)
    {
      hide Valid, List.NodeSet, UpdateMinTier, GoodOrder;
      forall judge | judge in judges && judge.name == name {
        judge.disabled := disabled;
      }
      assert Judges() == Flagged(old(View()), name, disabled).judges;
      order := UpdateTier();
    }

    /** abort(): whether a judge was told to stop. */
    method Abort(submission: nat) returns (told: bool)
      requires Valid() && DistinctIds(fifos)
      modifies this`nodeMap, this`fifos, queue, queue.NodeSet()
      ensures Valid() && IsAbort(old(View()), submission, View()) && told == (submission in submissionMap)
    {
      hide Valid, Offset, List.NodeSet, Without, DistinctIds;
      if submission in submissionMap {
        return true;
      }
      if submission in nodeMap {
        ghost var p, k := WhereQueued(submission);
        Unlink(nodeMap[submission], submission, p, k);
      } else {
        NotQueued(submission);
      }
      return false;
    }

    lemma WhereQueued(id: nat) returns (p: nat, k: nat)
      requires Valid() && id in nodeMap
      ensures p < PRIORITIES == |fifos| && k < |fifos[p]| && fifos[p][k].id == id
      ensures Offset(fifos, 0, p) + k < |queue.nodes| && queue.nodes[Offset(fifos, 0, p) + k] == nodeMap[id]
      ensures Queued(View(), id)
    {
      assert QueuedIn(fifos, id);
      p, k :| 0 <= p < |fifos| && 0 <= k < |fifos[p]| && fifos[p][k].id == id;
      assert EntryAt(queue.nodes, fifos, nodeMap, p, k);
    }

    lemma NotQueued(id: nat)
      requires Valid() && id !in nodeMap
      ensures !Queued(View(), id) && !QueuedIn(fifos, id)
    {
      forall p, k | 0 <= p < |fifos| && 0 <= k < |fifos[p]| ensures fifos[p][k].id != id {
        assert EntryAt(queue.nodes, fifos, nodeMap, p, k);
      }
    }

    /** Of some judges, one reporting the least load. */
    method LeastLoaded(candidates: set<Judge>) returns (best: Judge)
      requires candidates != {}
      ensures best in candidates && forall j :: j in candidates ==> best.load <= j.load
    {
      best :| best in candidates;
      var rest := candidates - {best};
      while rest != {}
        invariant best in candidates && rest <= candidates && forall j :: j in candidates - rest ==> best.load <= j.load
      {
        var j :| j in rest;
        rest := rest - {j};
        if j.load < best.load {
          best := j;
        }
      }
    }

    /** The free judges of the current tier that can take a submission; the last one is kept from rejudges. */
    method AvailableFor(s: Sub, p: nat) returns (available: set<Judge>)
      ensures available == Available(View(), s, p) && available <= judges
    {
      var candidates := set j | j in CurrentTierJudges() && j.CanJudge(s);
      assert candidates == JudgeQueue.Candidates(View(), s);
      available := set j | j in candidates && j.working.None? && !j.disabled;
      AvailableIs(View(), s, p, available);
      if |candidates| > 1 && |available| == 1 && p >= REJUDGE {
        available := {};
      }
    }

    /** judge(): a submission goes to a free judge, or waits in the queue of its priority. */
    method Accept(s: Sub, p: nat) returns (ghost choice: Option<Judge>)
      requires Valid() && p < PRIORITIES
      modifies this`nodeMap, this`submissionMap, this`fifos, queue, queue.NodeSet(), judges
      ensures Valid() && GoodChoice(old(View()), s, p, choice) && View() == JudgeQueue.Accept(old(View()), s, p, choice)
    {
      hide Valid, List.NodeSet, Available, Current, QueuedIn, Queued;
      choice := None;
      if s.id in submissionMap || s.id in nodeMap {
        if s.id in nodeMap { var q, k := WhereQueued(s.id); }
        return;
      }
      NotQueued(s.id);
      var available := AvailableFor(s, p);
      if available != {} {
        var judge := LeastLoaded(available);
        choice := Some(judge);
        Give(judge, s);
      } else {
        Enqueue(s, p);
      }
    }
  }

  lemma AvailableIs<J>(st: State<J>, s: Sub, p: nat, available: set<J>)
    requires forall j :: j in available ==> j in Candidates(st, s) && st.judges[j].working.None?
    requires forall j :: j in Candidates(st, s) && st.judges[j].working.None? ==> j in available
    ensures Available(st, s, p)
            == if |Candidates(st, s)| > 1 && |available| == 1 && p >= REJUDGE then {} else available
  {
    assert available == set j | j in Candidates(st, s) && st.judges[j].working.None?;
  }

  lemma NothingHandled<J>(st: State<J>)
    ensures HandleAll(st, []) == st
  {}

  lemma {:induction false} HandleAllNext<J>(st: State<J>, order: seq<J>, j: J)
    requires (forall i :: i in order ==> i in st.judges) && j in st.judges
    ensures var st' := HandleAll(st, order);
            HandleAll(st, order + [j]) == if st'.judges[j].working.None? then HandleFree(st', j) else st'
    decreases |order|
  {
    if order == [] {
      assert ([] + [j])[1..] == [];
    } else {
      var st' := if st.judges[order[0]].working.None? then HandleFree(st, order[0]) else st;
      assert (order + [j])[1..] == order[1..] + [j];
      HandleAllNext(st', order[1..], j);
    }
  }

  lemma EmptyArranged(nodes: seq<Node<Item>>)
    requires |nodes| == 4 && forall k :: 0 <= k < 4 ==> nodes[k].value == Marker(k)
    ensures Arranged(nodes, [[], [], [], []], nodes, map[])
  {
    hide Layout, Offset;
    EmptyLayout();
    assert Values(nodes) == [Marker(0), Marker(1), Marker(2), Marker(3)];
  }

  lemma EmptyLayout()
    ensures var fifos: seq<seq<Sub>> := [[], [], [], []];
            Layout(fifos, 0) == [Marker(0), Marker(1), Marker(2), Marker(3)] &&
            (forall p :: 0 <= p < 4 ==> fifos[p] == [] && Offset(fifos, 0, p) == p)
  {
    var fifos: seq<seq<Sub>> := [[], [], [], []];
    assert Layout(fifos, 4) == [];
    assert Layout(fifos, 3) == [Marker(3)];
    assert Layout(fifos, 2) == [Marker(2), Marker(3)];
    assert Layout(fifos, 1) == [Marker(1), Marker(2), Marker(3)];
    OffsetStep(fifos, 0, 0);
    OffsetStep(fifos, 0, 1);
    OffsetStep(fifos, 0, 2);
  }
}
