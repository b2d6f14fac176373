/** The queue of kernel/queue.h, threaded through the `next` fields of what it holds. */
module IntrusiveQueue {

  class Node {
    var next: Node?
    constructor () { next := null; }
  }

  /** Each node of the chain points at the one after it, and the last at null. */
  ghost predicate Chain(nodes: seq<Node>)
    reads set n | n in nodes
  {
    && (forall i, j | 0 <= i < j < |nodes| :: nodes[i] != nodes[j])
    && (forall i {:trigger nodes[i]} | 0 <= i < |nodes| ::
          nodes[i].next == if i == |nodes| - 1 then null else nodes[i + 1])
  }

  /** The nodes met by following `next` from n, as far as there are. */
  ghost predicate Leads(n: Node?, nodes: seq<Node>)
    reads set m | m in nodes
  {
    if nodes == [] then n == null else n == nodes[0] && Leads(nodes[0].next, nodes[1..])
  }

  lemma {:induction false} ChainLeads(nodes: seq<Node>)
    requires Chain(nodes)
    ensures Leads(if nodes == [] then null else nodes[0], nodes)
  {
    if nodes != [] {
      var rest := nodes[1..];
      assert forall i {:trigger rest[i]} | 0 <= i < |rest| :: rest[i] == nodes[i + 1];
      ChainLeads(rest);
    }
  }

  class Queue {
    var first: Node?
    var last: Node?
    ghost var nodes: seq<Node>

    ghost predicate Valid()
      reads this, set n | n in nodes
    {
      && Chain(nodes)
      && first == (if nodes == [] then null else nodes[0])
      && last == (if nodes == [] then null else nodes[|nodes| - 1])
    }

    constructor ()
      ensures Valid() && nodes == []
    {
      first, last, nodes := null, null, [];
    }

    method Add(t: Node)
      requires Valid() && t !in nodes
      modifies this, t, last
      ensures Valid() && nodes == old(nodes) + [t]
    {
      t.next := null;
      if first == null {
        first := t;
      } else {
        last.next := t;
      }
      last := t;
      nodes := nodes + [t];
    }

    method Remove() returns (it: Node?)
      requires Valid()
      modifies this
      ensures Valid()
      ensures if old(nodes) == [] then it == null && nodes == [] else it == old(nodes)[0] && nodes == old(nodes)[1..]
    {
      if first == null {
        return null;
      }
      it := first;
      first := it.next;
      if first == null {
        last := null;
      }
      nodes := nodes[1..];
    }

    /** The whole chain, in order, for the caller to follow. */
    method RemoveAll() returns (it: Node?)
      requires Valid()
      modifies this
      ensures Valid() && nodes == [] && Leads(it, old(nodes))
    {
      ChainLeads(nodes);
      it := first;
      first := null;
      last := null;
      nodes := [];
    }
  }
}
