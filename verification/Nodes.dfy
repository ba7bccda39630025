/** Heap-allocated list nodes, as both job programs link them. */
module Nodes {

  /** The `next` field, and the rest of the struct as `data`. */
  class Node<T> {
    var next: Node?<T>
    var data: T

    constructor (next: Node?<T>, data: T)
      ensures this.next == next && this.data == data
    {
      this.next := next;
      this.data := data;
    }
  }

  /** The node after position `k`. */
  ghost function After<T>(nodes: seq<Node<T>>, k: nat, end: Node?<T>): Node?<T>
  {
    if k + 1 < |nodes| then nodes[k + 1] else end
  }

  /** `nodes` are what one meets from `head` by following `next`, ending at `end`. */
  ghost predicate Chain<T>(head: Node?<T>, nodes: seq<Node<T>>, end: Node?<T>)
    reads nodes
  {
    && head == (if nodes == [] then end else nodes[0])
    && forall k | 0 <= k < |nodes| :: nodes[k].next == After(nodes, k, end)
  }

  ghost predicate Distinct<T>(nodes: seq<Node<T>>)
  {
    forall a, b | 0 <= a < b < |nodes| :: nodes[a] != nodes[b]
  }

  lemma ChainPush<T>(n: Node<T>, nodes: seq<Node<T>>, end: Node?<T>)
    requires Chain(n.next, nodes, end) && Distinct(nodes) && n !in nodes
    ensures Chain(n, [n] + nodes, end) && Distinct([n] + nodes)
  {
    var all := [n] + nodes;
    forall k | 0 <= k < |all| ensures all[k].next == After(all, k, end) {
      assert k > 0 ==> all[k] == nodes[k - 1] && all[k].next == After(nodes, k - 1, end);
    }
  }

  lemma ChainPop<T>(head: Node?<T>, nodes: seq<Node<T>>, end: Node?<T>)
    requires Chain(head, nodes, end) && Distinct(nodes) && nodes != []
    ensures Chain(nodes[0].next, nodes[1..], end) && Distinct(nodes[1..]) && nodes[0] !in nodes[1..]
  {
    var rest := nodes[1..];
    assert nodes[0].next == After(nodes, 0, end);
    forall k | 0 <= k < |rest| ensures rest[k].next == After(rest, k, end) {
      assert rest[k] == nodes[k + 1] && nodes[k + 1].next == After(nodes, k + 1, end);
    }
  }

  lemma ChainAppend<T>(head: Node?<T>, nodes: seq<Node<T>>, n: Node<T>)
    requires Chain(head, nodes, n) && Distinct(nodes) && n !in nodes
    ensures Chain(head, nodes + [n], n.next) && Distinct(nodes + [n])
  {
    var all := nodes + [n];
    forall k | 0 <= k < |all| ensures all[k].next == After(all, k, n.next) {
      assert k < |nodes| ==> all[k] == nodes[k] && nodes[k].next == After(nodes, k, n);
    }
  }

  /** A list that is not empty ends in one way only. */
  lemma ChainEnd<T>(head: Node?<T>, nodes: seq<Node<T>>, end: Node?<T>, other: Node?<T>)
    requires Chain(head, nodes, end) && nodes != []
    ensures Chain(head, nodes, other) <==> end == other
  {
    var last := |nodes| - 1;
    assert nodes[last].next == After(nodes, last, end);
    if Chain(head, nodes, other) {
      assert nodes[last].next == After(nodes, last, other);
    }
  }
}
