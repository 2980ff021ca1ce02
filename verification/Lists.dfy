/**
 The linked queue of libfep/list.c.  The tail is found through the `prev` link of the head, so
 appending needs no walk; a head alone in its list has no `prev`.
 */
module Lists {

  class FepList<T> {
    var prev: FepList?<T>
    var next: FepList?<T>
    const data: T

    constructor (data: T)
      ensures prev == null && next == null && this.data == data
    {
      this.data, prev, next := data, null, null;
    }
  }

  /** The nodes form a chain along `next`, without repetition, from head to a node without successor. */
  ghost predicate Chain<T>(head: FepList?<T>, nodes: seq<FepList<T>>)
    reads nodes
  {
    && (head == null <==> nodes == [])
    && (nodes != [] ==> nodes[0] == head && nodes[|nodes| - 1].next == null)
    && (forall i :: 0 <= i < |nodes| - 1 ==> nodes[i].next == nodes[i + 1])
    && (forall i, k :: 0 <= i < k < |nodes| ==> nodes[i] != nodes[k])
  }

  /** A chain that can be appended to: the head's `prev` names the last node, or nothing when it is alone. */
  ghost predicate Queue<T>(head: FepList?<T>, nodes: seq<FepList<T>>)
    reads nodes
  {
    && Chain(head, nodes)
    && (|nodes| == 1 ==> nodes[0].prev == null)
    && (|nodes| > 1 ==> nodes[0].prev == nodes[|nodes| - 1])
    && (forall i :: 0 < i < |nodes| ==> nodes[i].prev == nodes[i - 1])
  }

  /** The data of the nodes, in order. */
  ghost function Contents<T>(nodes: seq<FepList<T>>): (s: seq<T>)
    ensures |s| == |nodes|
  {
    seq(|nodes|, i requires 0 <= i < |nodes| => nodes[i].data)
  }

  /** A chain is acyclic: following `next` k times from the head visits the k-th node and ends after the last. */
  ghost function Walk<T>(head: FepList?<T>, k: nat, all: set<FepList<T>>): FepList?<T>
    reads all
  {
    if k == 0 || head == null || head !in all then head else Walk(head.next, k - 1, all)
  }

  lemma ChainRest<T>(head: FepList?<T>, nodes: seq<FepList<T>>)
    requires Chain(head, nodes) && nodes != []
    ensures head != null && Chain(head.next, nodes[1..])
  {
    var rest := nodes[1..];
    if rest != [] {
      assert nodes[0].next == nodes[1];
      assert forall i :: 0 <= i < |rest| ==> rest[i] == nodes[i + 1];
      forall i | 0 <= i < |rest| - 1 ensures rest[i].next == rest[i + 1] {
        assert nodes[i + 1].next == nodes[i + 2];
      }
    }
  }

  lemma {:induction false} WalkChain<T>(head: FepList?<T>, nodes: seq<FepList<T>>, k: nat, all: set<FepList<T>>)
    requires Chain(head, nodes) && k <= |nodes| && forall n :: n in nodes ==> n in all
    ensures Walk(head, k, all) == if k < |nodes| then nodes[k] else null
  {
    if k > 0 {
      ChainRest(head, nodes);
      WalkChain(head.next, nodes[1..], k - 1, all);
    }
  }

  /**
   Taking the first node off breaks the link to the tail: what remains is a chain with the rest of
   the data, but one that must not be appended to, unless nothing remains.
   */
  lemma AfterPop<T>(head: FepList<T>, nodes: seq<FepList<T>>)
    requires Queue(head, nodes)
    ensures Chain(head.next, nodes[1..]) && Contents(nodes) == [head.data] + Contents(nodes[1..])
    ensures Queue(head.next, nodes[1..]) <==> |nodes| == 1
  {
    ChainRest(head, nodes);
    if |nodes| > 1 {
      assert nodes[1].prev == nodes[0];
    }
  }

  /** _fep_list_append. */
  method Append<T>(head: FepList?<T>, data: T, ghost nodes: seq<FepList<T>>)
    returns (r: FepList<T>, ghost nodes': seq<FepList<T>>)
    requires Queue(head, nodes)
    modifies nodes
    ensures Queue(r, nodes')
    ensures Contents(nodes') == Contents(nodes) + [data]
    ensures |nodes'| == |nodes| + 1 && nodes'[..|nodes|] == nodes && fresh(nodes'[|nodes|])
    ensures head != null ==> r == head
  {
    var last := new FepList(data);
    nodes' := nodes + [last];
    if head == null {
      r := last;
    } else {
      var tail := if head.prev != null then head.prev else head;
      assert tail == nodes[|nodes| - 1];
      tail.next := last;
      head.prev := last;
      last.prev := tail;
      last.next := null;
      r := head;
    }
  }

  /** Draining by `next`: the data come out in the order appended, and the last node leads nowhere. */
  method Drain<T>(head: FepList?<T>, ghost nodes: seq<FepList<T>>) returns (data: seq<T>)
    requires Chain(head, nodes)
    ensures data == Contents(nodes)
  {
    data := [];
    var p := head;
    ghost var k := 0;
    while p != null
      invariant 0 <= k <= |nodes| && (p == null <==> k == |nodes|)
      invariant p != null ==> p == nodes[k]
      invariant data == Contents(nodes)[..k]
      decreases |nodes| - k
    {
      data := data + [p.data];
      assert k < |nodes| - 1 ==> p.next == nodes[k + 1];
      p := p.next;
      k := k + 1;
    }
  }
}
