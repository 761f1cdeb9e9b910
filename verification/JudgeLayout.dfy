/** Four queues and four markers laid out in one line, as the dispatcher's linked list holds them. */
module JudgeLayout {
  import opened Common
  import opened JudgeQueue
  import opened Dllist

  datatype Item = Marker(priority: nat) | Entry(sub: Sub)

  function Entries(fifo: seq<Sub>): (items: seq<Item>) {
    seq(|fifo|, k requires 0 <= k < |fifo| => Entry(fifo[k]))
  }

  /** The queues from priority `from` on, each one ended by its marker. */
  function Layout(fifos: seq<seq<Sub>>, from: nat): seq<Item>
    decreases |fifos| - from
  {
    if from >= |fifos| then [] else Entries(fifos[from]) + [Marker(from)] + Layout(fifos, from + 1)
  }

  /** How many places there are from the start of queue `from` to the start of queue `p`. */
  function Offset(fifos: seq<seq<Sub>>, from: nat, p: nat): nat
    requires from <= p <= |fifos|
    decreases p - from
  {
    if p == from then 0 else |fifos[from]| + 1 + Offset(fifos, from + 1, p)
  }

  /** What is at place k of queue p: a submission, or the marker that ends it. */
  lemma {:induction false} LayoutAt(fifos: seq<seq<Sub>>, from: nat, p: nat, k: nat)
    requires from <= p < |fifos| && k <= |fifos[p]|
    ensures Offset(fifos, from, p) + k < |Layout(fifos, from)|
    ensures Layout(fifos, from)[Offset(fifos, from, p) + k] == if k < |fifos[p]| then Entry(fifos[p][k]) else Marker(p)
    decreases p - from
  {
    if from < p {
      LayoutAt(fifos, from + 1, p, k);
      var head, rest := Entries(fifos[from]) + [Marker(from)], Layout(fifos, from + 1);
      var n := Offset(fifos, from + 1, p) + k;
      assert |head| == |fifos[from]| + 1;
      assert Offset(fifos, from, p) + k == |head| + n;
      assert (head + rest)[|head| + n] == rest[n];
    }
  }

  lemma LayoutHas(fifos: seq<seq<Sub>>, p: nat)
    requires p < |fifos|
    ensures Offset(fifos, 0, p) + |fifos[p]| < |Layout(fifos, 0)|
    ensures forall k :: 0 <= k < |fifos[p]| ==> Layout(fifos, 0)[Offset(fifos, 0, p) + k] == Entry(fifos[p][k])
    ensures Layout(fifos, 0)[Offset(fifos, 0, p) + |fifos[p]|] == Marker(p)
  {
    LayoutAt(fifos, 0, p, |fifos[p]|);
    forall k | 0 <= k < |fifos[p]|
      ensures Layout(fifos, 0)[Offset(fifos, 0, p) + k] == Entry(fifos[p][k])
    {
      LayoutAt(fifos, 0, p, k);
    }
  }

  lemma {:induction false} LayoutSize(fifos: seq<seq<Sub>>, from: nat)
    requires from <= |fifos|
    ensures |Layout(fifos, from)| == Offset(fifos, from, |fifos|)
    decreases |fifos| - from
  {
    if from < |fifos| { LayoutSize(fifos, from + 1); }
  }

  lemma {:induction false} OffsetStep(fifos: seq<seq<Sub>>, from: nat, p: nat)
    requires from <= p < |fifos|
    ensures Offset(fifos, from, p + 1) == Offset(fifos, from, p) + |fifos[p]| + 1
    decreases p - from
  {
    if from < p { OffsetStep(fifos, from + 1, p); }
  }

  /** Offsets after one queue changed. */
  lemma {:induction false} OffsetChanged(fifos: seq<seq<Sub>>, p: nat, fifo: seq<Sub>, from: nat, q: nat)
    requires p < |fifos| && from <= q <= |fifos|
    ensures Offset(fifos[p := fifo], from, q)
            == Offset(fifos, from, q) + (if from <= p < q then |fifo| - |fifos[p]| else 0)
    decreases q - from
  {
    if from < q { OffsetChanged(fifos, p, fifo, from + 1, q); }
  }

  lemma {:induction false} LayoutFrom(fifos: seq<seq<Sub>>, p: nat, fifo: seq<Sub>, from: nat)
    requires p < from && p < |fifos|
    ensures Layout(fifos[p := fifo], from) == Layout(fifos, from)
    decreases |fifos| - from
  {
    if from < |fifos| { LayoutFrom(fifos, p, fifo, from + 1); }
  }

  /** One queue in the middle of the line, with what is before and after it. */
  lemma {:induction false} LayoutAround(fifos: seq<seq<Sub>>, p: nat, fifo: seq<Sub>, from: nat)
    returns (before: seq<Item>, after: seq<Item>)
    requires from <= p < |fifos|
    ensures Layout(fifos, from) == before + Entries(fifos[p]) + after
    ensures Layout(fifos[p := fifo], from) == before + Entries(fifo) + after
    ensures |before| == Offset(fifos, from, p)
    decreases p - from
  {
    LayoutFront(fifos, from);
    LayoutFront(fifos[p := fifo], from);
    if from == p {
      LayoutFrom(fifos, p, fifo, p + 1);
      before, after := [], [Marker(p)] + Layout(fifos, p + 1);
      hide *;
      Associative(Entries(fifos[p]), [Marker(p)], Layout(fifos, p + 1));
      Associative(Entries(fifo), [Marker(p)], Layout(fifos, p + 1));
      assert [] + Entries(fifos[p]) == Entries(fifos[p]) && [] + Entries(fifo) == Entries(fifo);
    } else {
      assert Offset(fifos, from, p) == |fifos[from]| + 1 + Offset(fifos, from + 1, p);
      var b, a := LayoutAround(fifos, p, fifo, from + 1);
      var head := Entries(fifos[from]) + [Marker(from)];
      assert |head| == |fifos[from]| + 1;
      before, after := head + b, a;
      hide *;
      Nested(head, b, Entries(fifos[p]), a);
      Nested(head, b, Entries(fifo), a);
    }
  }

  lemma LayoutFront(fifos: seq<seq<Sub>>, from: nat)
    requires from < |fifos|
    ensures Layout(fifos, from) == Entries(fifos[from]) + [Marker(from)] + Layout(fifos, from + 1)
  {}

  lemma Nested<T>(w: seq<T>, x: seq<T>, y: seq<T>, z: seq<T>)
    ensures w + (x + y + z) == w + x + y + z
  {}

  lemma RemovedInside<N>(before: seq<N>, all: seq<N>, after: seq<N>, k: nat)
    requires k < |all|
    ensures Removed(before + all + after, |before| + k) == before + Removed(all, k) + after
  {
    var x, y := before + all + after, before + Removed(all, k) + after;
    assert x[..|before| + k] == before + all[..k];
    assert x[|before| + k + 1..] == all[k + 1..] + after;
  }

  lemma InsertedInside<N>(before: seq<N>, all: seq<N>, after: seq<N>, node: N)
    ensures Inserted(before + all + after, |before| + |all|, node) == before + (all + [node]) + after
  {
    var x := before + all + after;
    assert x[..|before| + |all|] == before + all;
    assert x[|before| + |all|..] == after;
  }

  /** A submission queued right before the marker of its priority. */
  lemma LayoutInsert(fifos: seq<seq<Sub>>, p: nat, s: Sub)
    requires p < |fifos|
    ensures var m := Offset(fifos, 0, p) + |fifos[p]|;
            m < |Layout(fifos, 0)| && Layout(fifos[p := fifos[p] + [s]], 0) == Inserted(Layout(fifos, 0), m, Entry(s))
  {
    LayoutHas(fifos, p);
    var before, after := LayoutAround(fifos, p, fifos[p] + [s], 0);
    EntriesWithNext(fifos[p], s);
    hide Layout, Entries, Inserted;
    InsertedInside(before, Entries(fifos[p]), after, Entry(s));
  }

  lemma EntriesWithNext(fifo: seq<Sub>, s: Sub)
    ensures |Entries(fifo)| == |fifo| && Entries(fifo + [s]) == Entries(fifo) + [Entry(s)]
  {}

  lemma LayoutRemove(fifos: seq<seq<Sub>>, p: nat, k: nat)
    requires p < |fifos| && k < |fifos[p]|
    ensures var m := Offset(fifos, 0, p) + k;
            m < |Layout(fifos, 0)| && Layout(fifos[p := Without(fifos[p], k)], 0) == Removed(Layout(fifos, 0), m)
  {
    hide Layout, Entries, Removed, Without;
    LayoutHas(fifos, p);
    var before, after := LayoutAround(fifos, p, Without(fifos[p], k), 0);
    RemovedEntries(fifos[p], k);
    RemovedInside(before, Entries(fifos[p]), after, k);
  }

  lemma RemovedEntries(fifo: seq<Sub>, k: nat)
    requires k < |fifo|
    ensures |Entries(fifo)| == |fifo| && Entries(Without(fifo, k)) == Removed(Entries(fifo), k)
  {}

  lemma PickIs(fifos: seq<seq<Sub>>, w: Worker, reserve: bool, p: nat, k: nat)
    requires p < |fifos| && k < |fifos[p]| && w.CanJudge(fifos[p][k]) && (reserve ==> p < REJUDGE)
    requires forall q, l :: 0 <= q < p && 0 <= l < |fifos[q]| ==> !w.CanJudge(fifos[q][l])
    requires forall l :: 0 <= l < k ==> !w.CanJudge(fifos[p][l])
    ensures Pick(fifos, w, reserve) == Some((p, k))
  {
    var r := Pick(fifos, w, reserve);
    assert r.Some?;
    var (q, l) := r.value;
    assert w.CanJudge(fifos[q][l]);
  }

  lemma PickNothing(fifos: seq<seq<Sub>>, w: Worker, reserve: bool)
    requires forall q, l :: 0 <= q < |fifos| && 0 <= l < |fifos[q]| && (reserve ==> q < REJUDGE) ==>
               !w.CanJudge(fifos[q][l])
    ensures Pick(fifos, w, reserve) == None
  {}

  // ---------------------------------------------------------- the markers and the index, against the line of nodes

  ghost predicate MarkerAt<N>(nodes: seq<N>, fifos: seq<seq<Sub>>, priority: seq<N>, p: nat)
    requires p < |fifos| && p < |priority|
  {
    var m := Offset(fifos, 0, p) + |fifos[p]|;
    m < |nodes| && priority[p] == nodes[m]
  }

  ghost predicate EntryAt<N>(nodes: seq<N>, fifos: seq<seq<Sub>>, nodeMap: map<nat, N>, p: nat, k: nat)
    requires p < |fifos| && k < |fifos[p]|
  {
    var m := Offset(fifos, 0, p) + k;
    m < |nodes| && fifos[p][k].id in nodeMap && nodeMap[fifos[p][k].id] == nodes[m]
  }

  ghost predicate QueuedIn(fifos: seq<seq<Sub>>, id: nat) {
    exists p, k :: 0 <= p < |fifos| && 0 <= k < |fifos[p]| && fifos[p][k].id == id
  }

  /** Every marker and every queued id point to their own node, and the index holds nothing else. */
  ghost predicate Indexed<N>(nodes: seq<N>, fifos: seq<seq<Sub>>, priority: seq<N>, nodeMap: map<nat, N>) {
    |fifos| == |priority| == PRIORITIES &&
    (forall p :: 0 <= p < PRIORITIES ==> MarkerAt(nodes, fifos, priority, p)) &&
    (forall p, k :: 0 <= p < PRIORITIES && 0 <= k < |fifos[p]| ==> EntryAt(nodes, fifos, nodeMap, p, k)) &&
    (forall id :: id in nodeMap ==> QueuedIn(fifos, id))
  }

  ghost predicate Distinct<N>(nodes: seq<N>) {
    forall i, j :: 0 <= i < j < |nodes| ==> nodes[i] != nodes[j]
  }

  lemma {:induction false} OffsetsApart(fifos: seq<seq<Sub>>, p: nat, q: nat)
    requires p < q < |fifos|
    ensures Offset(fifos, 0, p) + |fifos[p]| + 1 <= Offset(fifos, 0, q)
    decreases q
  {
    OffsetStep(fifos, 0, q - 1);
    if p < q - 1 { OffsetsApart(fifos, p, q - 1); }
  }

  lemma MarkerInsert<N>(nodes: seq<N>, fifos: seq<seq<Sub>>, priority: seq<N>, p: nat, s: Sub, node: N, q: nat)
    requires |fifos| == |priority| && p < |fifos| && q < |fifos| && Offset(fifos, 0, p) + |fifos[p]| <= |nodes|
    requires MarkerAt(nodes, fifos, priority, q)
    ensures MarkerAt(Inserted(nodes, Offset(fifos, 0, p) + |fifos[p]|, node), fifos[p := fifos[p] + [s]], priority, q)
  {
    hide Inserted, Offset;
    MovedInsert(fifos, p, s, q, |fifos[q]|);
    InsertedAt(nodes, Offset(fifos, 0, p) + |fifos[p]|, node, Offset(fifos, 0, q) + |fifos[q]|);
  }

  lemma EntryInsert<N>(nodes: seq<N>, fifos: seq<seq<Sub>>, nodeMap: map<nat, N>, p: nat, s: Sub, node: N, q: nat,
                       k: nat)
    requires p < |fifos| && q < |fifos| && k < |fifos[q]| && Offset(fifos, 0, p) + |fifos[p]| <= |nodes|
    requires EntryAt(nodes, fifos, nodeMap, q, k) && fifos[q][k].id != s.id
    ensures EntryAt(Inserted(nodes, Offset(fifos, 0, p) + |fifos[p]|, node), fifos[p := fifos[p] + [s]],
                    nodeMap[s.id := node], q, k)
  {
    hide Inserted, Offset;
    MovedInsert(fifos, p, s, q, k);
    InsertedAt(nodes, Offset(fifos, 0, p) + |fifos[p]|, node, Offset(fifos, 0, q) + k);
    assert fifos[p := fifos[p] + [s]][q][k] == fifos[q][k];
  }

  lemma NewEntry<N>(nodes: seq<N>, fifos: seq<seq<Sub>>, nodeMap: map<nat, N>, p: nat, s: Sub, node: N)
    requires p < |fifos| && Offset(fifos, 0, p) + |fifos[p]| <= |nodes|
    ensures EntryAt(Inserted(nodes, Offset(fifos, 0, p) + |fifos[p]|, node), fifos[p := fifos[p] + [s]],
                    nodeMap[s.id := node], p, |fifos[p]|)
  {
    OffsetChanged(fifos, p, fifos[p] + [s], 0, p);
    assert |Inserted(nodes, Offset(fifos, 0, p) + |fifos[p]|, node)| == |nodes| + 1;
    assert Inserted(nodes, Offset(fifos, 0, p) + |fifos[p]|, node)[Offset(fifos, 0, p) + |fifos[p]|] == node;
    hide Inserted, Offset;
    assert fifos[p := fifos[p] + [s]][p][|fifos[p]|] == s;
  }

  lemma IndexInsert<N>(nodes: seq<N>, fifos: seq<seq<Sub>>, priority: seq<N>, nodeMap: map<nat, N>,
                       p: nat, s: Sub, node: N)
    requires Indexed(nodes, fifos, priority, nodeMap) && p < PRIORITIES && !QueuedIn(fifos, s.id)
    ensures var m := Offset(fifos, 0, p) + |fifos[p]|;
            m < |nodes| &&
            Indexed(Inserted(nodes, m, node), fifos[p := fifos[p] + [s]], priority, nodeMap[s.id := node])
  {
    assert MarkerAt(nodes, fifos, priority, p);
    var m := Offset(fifos, 0, p) + |fifos[p]|;
    assert m < |nodes|;
    hide MarkerAt, EntryAt, Inserted, Offset;
    var fifos', nodes', nodeMap' := fifos[p := fifos[p] + [s]], Inserted(nodes, m, node), nodeMap[s.id := node];
    forall q | 0 <= q < PRIORITIES ensures MarkerAt(nodes', fifos', priority, q) {
      MarkerInsert(nodes, fifos, priority, p, s, node, q);
    }
    forall q, k | 0 <= q < PRIORITIES && 0 <= k < |fifos'[q]| ensures EntryAt(nodes', fifos', nodeMap', q, k) {
      if q == p && k == |fifos[p]| {
        NewEntry(nodes, fifos, nodeMap, p, s, node);
      } else {
        EntryInsert(nodes, fifos, nodeMap, p, s, node, q, k);
      }
    }
    forall id | id in nodeMap' ensures QueuedIn(fifos', id) {
      QueuedAfterInsert(fifos, p, s, id);
    }
  }

  lemma QueuedAfterInsert(fifos: seq<seq<Sub>>, p: nat, s: Sub, id: nat)
    requires p < |fifos| && (QueuedIn(fifos, id) || id == s.id)
    ensures QueuedIn(fifos[p := fifos[p] + [s]], id)
  {
    var fifos': seq<seq<Sub>> := fifos[p := fifos[p] + [s]];
    if id == s.id {
      assert fifos'[p][|fifos[p]|] == s;
    } else {
      var q, k :| 0 <= q < |fifos| && 0 <= k < |fifos[q]| && fifos[q][k].id == id;
      assert fifos'[q][k] == fifos[q][k];
    }
  }

  /** Where place k of queue q is after a submission joined queue p. */
  lemma MovedInsert(fifos: seq<seq<Sub>>, p: nat, s: Sub, q: nat, k: nat)
    requires p < |fifos| && q < |fifos| && k <= |fifos[q]|
    ensures var m, i := Offset(fifos, 0, p) + |fifos[p]|, Offset(fifos, 0, q) + k;
            Offset(fifos[p := fifos[p] + [s]], 0, q) + k == (if q <= p then i else i + 1) &&
            (if q < p || (q == p && k < |fifos[p]|) then i < m else i >= m)
  {
    OffsetChanged(fifos, p, fifos[p] + [s], 0, q);
    if q < p { OffsetsApart(fifos, q, p); }
    if p < q { OffsetsApart(fifos, p, q); }
  }

  lemma MarkerRemove<N>(nodes: seq<N>, fifos: seq<seq<Sub>>, priority: seq<N>, p: nat, k: nat, q: nat)
    requires |fifos| == |priority| && p < |fifos| && q < |fifos| && k < |fifos[p]| && Offset(fifos, 0, p) + k < |nodes|
    requires MarkerAt(nodes, fifos, priority, q)
    ensures MarkerAt(Removed(nodes, Offset(fifos, 0, p) + k), fifos[p := Without(fifos[p], k)], priority, q)
  {
    hide Removed, Offset;
    MovedRemove(fifos, p, k, q, |fifos[q]|);
    RemovedAt(nodes, Offset(fifos, 0, p) + k, Offset(fifos, 0, q) + |fifos[q]|);
  }

  lemma EntryRemove<N>(nodes: seq<N>, fifos: seq<seq<Sub>>, nodeMap: map<nat, N>, p: nat, k: nat, q: nat, l: nat)
    requires p < |fifos| && q < |fifos| && k < |fifos[p]| && l < |fifos[q]| && !(q == p && l == k)
    requires Offset(fifos, 0, p) + k < |nodes|
    requires EntryAt(nodes, fifos, nodeMap, q, l) && fifos[q][l].id != fifos[p][k].id
    ensures var l' := if q == p && l > k then l - 1 else l;
            l' < |fifos[p := Without(fifos[p], k)][q]| &&
            EntryAt(Removed(nodes, Offset(fifos, 0, p) + k), fifos[p := Without(fifos[p], k)],
                    nodeMap - {fifos[p][k].id}, q, l')
  {
    hide Removed, Offset;
    MovedRemove(fifos, p, k, q, l);
    RemovedAt(nodes, Offset(fifos, 0, p) + k, Offset(fifos, 0, q) + l);
    var l' := if q == p && l > k then l - 1 else l;
    assert fifos[p := Without(fifos[p], k)][q][l'] == fifos[q][l];
  }

  lemma IndexIsDistinct<N>(nodes: seq<N>, fifos: seq<seq<Sub>>, priority: seq<N>, nodeMap: map<nat, N>,
                           p: nat, k: nat, q: nat, l: nat)
    requires Indexed(nodes, fifos, priority, nodeMap) && Distinct(nodes) && p < PRIORITIES && q < PRIORITIES
    requires k < |fifos[p]| && l < |fifos[q]| && !(p == q && k == l)
    ensures fifos[p][k].id != fifos[q][l].id
  {
    assert EntryAt(nodes, fifos, nodeMap, p, k) && EntryAt(nodes, fifos, nodeMap, q, l);
    if p < q { OffsetsApart(fifos, p, q); }
    if q < p { OffsetsApart(fifos, q, p); }
  }

  lemma IndexRemove<N>(nodes: seq<N>, fifos: seq<seq<Sub>>, priority: seq<N>, nodeMap: map<nat, N>, p: nat, k: nat)
    requires Indexed(nodes, fifos, priority, nodeMap) && Distinct(nodes) && p < PRIORITIES && k < |fifos[p]|
    ensures var m := Offset(fifos, 0, p) + k;
            m < |nodes| &&
            Indexed(Removed(nodes, m), fifos[p := Without(fifos[p], k)], priority, nodeMap - {fifos[p][k].id})
  {
    assert EntryAt(nodes, fifos, nodeMap, p, k);
    var m, id := Offset(fifos, 0, p) + k, fifos[p][k].id;
    assert m < |nodes|;
    hide MarkerAt, EntryAt, Removed, Offset, Distinct;
    var fifos', nodes', nodeMap' := fifos[p := Without(fifos[p], k)], Removed(nodes, m), nodeMap - {id};
    forall q | 0 <= q < PRIORITIES ensures MarkerAt(nodes', fifos', priority, q) {
      MarkerRemove(nodes, fifos, priority, p, k, q);
    }
    forall q, l | 0 <= q < PRIORITIES && 0 <= l < |fifos'[q]| ensures EntryAt(nodes', fifos', nodeMap', q, l) {
      var l' := if q == p && l >= k then l + 1 else l;
      IndexIsDistinct(nodes, fifos, priority, nodeMap, p, k, q, l');
      EntryRemove(nodes, fifos, nodeMap, p, k, q, l');
    }
    forall i | i in nodeMap' ensures QueuedIn(fifos', i) {
      QueuedAfterRemove(fifos, p, k, i);
    }
  }

  lemma QueuedAfterRemove(fifos: seq<seq<Sub>>, p: nat, k: nat, id: nat)
    requires p < |fifos| && k < |fifos[p]| && QueuedIn(fifos, id) && id != fifos[p][k].id
    ensures QueuedIn(fifos[p := Without(fifos[p], k)], id)
  {
    var fifos': seq<seq<Sub>> := fifos[p := Without(fifos[p], k)];
    var q, l :| 0 <= q < |fifos| && 0 <= l < |fifos[q]| && fifos[q][l].id == id;
    var l' := if q == p && l > k then l - 1 else l;
    assert fifos'[q][l'] == fifos[q][l];
  }

  /** Where place l of queue q is after place k of queue p was taken out. */
  lemma MovedRemove(fifos: seq<seq<Sub>>, p: nat, k: nat, q: nat, l: nat)
    requires p < |fifos| && q < |fifos| && k < |fifos[p]| && l <= |fifos[q]| && !(q == p && l == k)
    ensures var m, i := Offset(fifos, 0, p) + k, Offset(fifos, 0, q) + l;
            Offset(fifos[p := Without(fifos[p], k)], 0, q) + (if q == p && l > k then l - 1 else l)
            == (if q < p || (q == p && l < k) then i else i - 1) &&
            (if q < p || (q == p && l < k) then i < m else i > m)
  {
    OffsetChanged(fifos, p, Without(fifos[p], k), 0, q);
    if q < p { OffsetsApart(fifos, q, p); }
    if p < q { OffsetsApart(fifos, p, q); }
  }

  /** The nodes hold the queues in a line, and the markers and the index point where they should. */
  ghost predicate Arranged(nodes: seq<Node<Item>>, fifos: seq<seq<Sub>>, priority: seq<Node<Item>>,
                           nodeMap: map<nat, Node<Item>>)
  {
    Values(nodes) == Layout(fifos, 0) && Indexed(nodes, fifos, priority, nodeMap)
  }

  lemma ArrangedInsert(nodes: seq<Node<Item>>, fifos: seq<seq<Sub>>, priority: seq<Node<Item>>,
                       nodeMap: map<nat, Node<Item>>, p: nat, s: Sub, node: Node<Item>)
    requires Arranged(nodes, fifos, priority, nodeMap) && p < PRIORITIES && !QueuedIn(fifos, s.id)
    requires node.value == Entry(s)
    ensures |fifos| == PRIORITIES
    ensures var m := Offset(fifos, 0, p) + |fifos[p]|;
            m < |nodes| &&
            Arranged(Inserted(nodes, m, node), fifos[p := fifos[p] + [s]], priority, nodeMap[s.id := node])
  {
    hide Layout, Offset, Inserted, Values, QueuedIn, MarkerAt, EntryAt;
    LayoutInsert(fifos, p, s);
    IndexInsert(nodes, fifos, priority, nodeMap, p, s, node);
    ValuesInserted(nodes, Offset(fifos, 0, p) + |fifos[p]|, node);
  }

  lemma ArrangedRemove(nodes: seq<Node<Item>>, fifos: seq<seq<Sub>>, priority: seq<Node<Item>>,
                       nodeMap: map<nat, Node<Item>>, p: nat, k: nat)
    requires Arranged(nodes, fifos, priority, nodeMap) && Distinct(nodes) && p < |fifos| && k < |fifos[p]|
    ensures |fifos| == PRIORITIES
    ensures var m := Offset(fifos, 0, p) + k;
            m < |nodes| &&
            Arranged(Removed(nodes, m), fifos[p := Without(fifos[p], k)], priority, nodeMap - {fifos[p][k].id})
  {
    hide Layout, Offset, Removed, Values, Without, Distinct, MarkerAt, EntryAt;
    LayoutRemove(fifos, p, k);
    IndexRemove(nodes, fifos, priority, nodeMap, p, k);
    ValuesRemoved(nodes, Offset(fifos, 0, p) + k);
  }
}
