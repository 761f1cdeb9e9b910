/** The doubly linked list of the dispatcher's queue, as judge_list.py uses it. */
module Dllist {
  function Inserted<N>(nodes: seq<N>, m: nat, node: N): seq<N>
    requires m <= |nodes|
  {
    nodes[..m] + [node] + nodes[m..]
  }

  function Removed<N>(nodes: seq<N>, m: nat): seq<N>
    requires m < |nodes|
  {
    nodes[..m] + nodes[m + 1..]
  }

  lemma InsertedAt<N>(nodes: seq<N>, m: nat, node: N, i: nat)
    requires m <= |nodes| && i < |nodes|
    ensures |Inserted(nodes, m, node)| == |nodes| + 1 && Inserted(nodes, m, node)[m] == node
    ensures Inserted(nodes, m, node)[if i < m then i else i + 1] == nodes[i]
  {}

  lemma RemovedAt<N>(nodes: seq<N>, m: nat, i: nat)
    requires m < |nodes| && i < |nodes| && i != m
    ensures |Removed(nodes, m)| == |nodes| - 1
    ensures Removed(nodes, m)[if i < m then i else i - 1] == nodes[i]
  {}

  class Node<T> {
    const value: T
    var prev: Node?<T>
    var next: Node?<T>

    constructor (value: T)
      ensures this.value == value && prev == null && next == null
    {
      this.value := value;
      prev, next := null, null;
    }
  }

  ghost function Values<T>(nodes: seq<Node<T>>): (values: seq<T>)
    ensures |values| == |nodes| && forall i :: 0 <= i < |nodes| ==> values[i] == nodes[i].value
  {
    seq(|nodes|, i requires 0 <= i < |nodes| => nodes[i].value)
  }

  lemma ValuesInserted<T>(nodes: seq<Node<T>>, k: nat, node: Node<T>)
    requires k <= |nodes|
    ensures Values(Inserted(nodes, k, node)) == Inserted(Values(nodes), k, node.value)
  {}

  lemma ValuesRemoved<T>(nodes: seq<Node<T>>, k: nat)
    requires k < |nodes|
    ensures Values(Removed(nodes, k)) == Removed(Values(nodes), k)
  {}

  class List<T> {
    ghost var nodes: seq<Node<T>>
    var first: Node?<T>
    var last: Node?<T>

    ghost predicate Valid()
      reads this, nodes
    {
      first == (if nodes == [] then null else nodes[0]) &&
      last == (if nodes == [] then null else nodes[|nodes| - 1]) &&
      (forall i {:trigger nodes[i].prev} :: 0 <= i < |nodes| ==>
         nodes[i].prev == if i == 0 then null else nodes[i - 1]) &&
      (forall i {:trigger nodes[i].next} :: 0 <= i < |nodes| ==>
         nodes[i].next == if i == |nodes| - 1 then null else nodes[i + 1]) &&
      (forall i, j :: 0 <= i < j < |nodes| ==> nodes[i] != nodes[j])
    }

    ghost function NodeSet(): set<Node<T>>
      reads this
    {
      set node | node in nodes
    }

    constructor ()
      ensures Valid() && nodes == []
    {
      nodes, first, last := [], null, null;
    }

    method Append(value: T) returns (node: Node<T>)
      requires Valid()
      modifies this, nodes
      ensures Valid() && fresh(node) && node.value == value && nodes == old(nodes) + [node]
    {
      node := new Node(value);
      if last == null {
        first := node;
      } else {
        last.next := node;
        node.prev := last;
      }
      last := node;
      nodes := nodes + [node];
    }

    /** A new node right before `at`. */
    method Insert(value: T, at: Node<T>, ghost k: nat) returns (node: Node<T>)
      requires Valid() && k < |nodes| && nodes[k] == at
      modifies this, NodeSet()
      ensures Valid() && fresh(node) && node.value == value
      ensures nodes == Inserted(old(nodes), k, node)
    {
      node := new Node(value);
      node.prev, node.next := at.prev, at;
      if at.prev == null {
        first := node;
      } else {
        at.prev.next := node;
      }
      at.prev := node;
      nodes := nodes[..k] + [node] + nodes[k..];
    }

    method Remove(node: Node<T>, ghost k: nat)
      requires Valid() && k < |nodes| && nodes[k] == node
      modifies this, NodeSet()
      ensures Valid() && nodes == Removed(old(nodes), k) && NodeSet() <= old(NodeSet())
    {
      if node.prev == null {
        first := node.next;
      } else {
        node.prev.next := node.next;
      }
      if node.next == null {
        last := node.prev;
      } else {
        node.next.prev := node.prev;
      }
      nodes := nodes[..k] + nodes[k + 1..];
    }
  }
}
