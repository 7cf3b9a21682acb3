/**
 * The singly linked list of expired timers in lib/lk/Timer.C: nodes linked by nextFree, pushed
 * at the front, reversed in place and drained.
 */
module TimerList {
  import opened Prelude

  /** A nextFree pointer: null, LIST_END, or a node. */
  datatype Link = Off | End | To(node: Node)

  class Node {
    var nextFree: Link

    constructor ()
      ensures nextFree == Off
    {
      nextFree := Off;
    }
  }

  /** The list that starts at `head` is `nodes`. */
  ghost predicate Chain(head: Link, nodes: seq<Node>)
    reads nodes
    decreases |nodes|
  {
    if nodes == [] then head == End
    else head == To(nodes[0]) && Chain(nodes[0].nextFree, nodes[1..])
  }

  lemma {:induction false} ReversedTwice<T>(s: seq<T>)
    ensures Reversed(Reversed(s)) == s
  {
    if s != [] {
      ReversedAppend(Reversed(s[1..]), [s[0]]);
      assert Reversed([s[0]]) == [s[0]];
      ReversedTwice(s[1..]);
    }
  }

  /** handleEvent's push, as the compare-and-store leaves it. */
  method Push(expired: Link, node: Node, ghost nodes: seq<Node>) returns (head: Link)
    requires Chain(expired, nodes) && node !in nodes
    modifies node
    ensures Chain(head, [node] + nodes)
  {
    node.nextFree := expired;
    head := To(node);
    assert ([node] + nodes)[1..] == nodes;
  }

  /** runTimer's first loop. */
  method Reverse(expired: Link, ghost nodes: seq<Node>) returns (newList: Link)
    requires Chain(expired, nodes) && Distinct(nodes)
    modifies nodes
    ensures Chain(newList, Reversed(nodes))
  {
    var list := expired;
    newList := End;
    ghost var k := 0;
    while list != End
      invariant k <= |nodes| && Chain(list, nodes[k..]) && Chain(newList, Reversed(nodes[..k]))
      decreases |nodes| - k
    {
      ghost var done := nodes[..k];
      var curr := list.node;
      var n := curr.nextFree;
      assert curr == nodes[k] && Chain(n, nodes[k..][1..]) && nodes[k..][1..] == nodes[k + 1..];
      ReversedIn(done, curr);
      ReversedAppend(done, [curr]);
      assert Reversed([curr]) == [curr];
      assert nodes[..k + 1] == done + [curr];
      curr.nextFree := newList;
      assert ([curr] + Reversed(done))[1..] == Reversed(done);
      newList := To(curr);
      list := n;
      k := k + 1;
    }
    assert nodes[..k] == nodes;
  }

  /** runTimer's second loop: each node is unlinked and handled in list order. */
  method Drain(batch: Link, ghost nodes: seq<Node>) returns (handled: seq<Node>)
    requires Chain(batch, nodes) && Distinct(nodes)
    modifies nodes
    ensures handled == nodes && forall n :: n in nodes ==> n.nextFree == Off
  {
    var list := batch;
    handled := [];
    while list != End
      invariant |handled| <= |nodes| && handled == nodes[..|handled|] && Chain(list, nodes[|handled|..])
      invariant forall n :: n in handled ==> n.nextFree == Off
      decreases |nodes| - |handled|
    {
      ghost var k := |handled|;
      var curr := list.node;
      assert curr == nodes[k] && nodes[k..][1..] == nodes[k + 1..];
      list := curr.nextFree;
      curr.nextFree := Off;
      handled := handled + [curr];
    }
  }

  /**
   * Timers pushed one after the other are handled in the order in which they were pushed, and
   * leave the list unlinked.
   */
  method RunBatch(expired: Link, ghost stacked: seq<Node>, ghost pushed: seq<Node>) returns (handled: seq<Node>)
    requires Chain(expired, stacked) && stacked == Reversed(pushed) && Distinct(pushed)
    modifies pushed, stacked
    ensures handled == pushed && forall n :: n in pushed ==> n.nextFree == Off
  {
    ReversedDistinct(pushed);
    ReversedTwice(pushed);
    var batch := Reverse(expired, stacked);
    handled := Drain(batch, pushed);
  }

  lemma {:induction false} ReversedDistinct<T>(s: seq<T>)
    requires Distinct(s)
    ensures Distinct(Reversed(s))
  {
    if s != [] {
      ReversedDistinct(s[1..]);
      ReversedIn(s[1..], s[0]);
    }
  }
}
