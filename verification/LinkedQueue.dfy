/**
  The kernel's queue: a doubly linked list with a count, a head and a tail. `nodes` is the
  ghost list of its nodes, front first, and `Contents()` the sequence of their values.
 */
module LinkedQueue {
  import opened Basics
  import opened Sequences

  class Node<T> {
    const value: T
    var prev: Node?<T>
    var next: Node?<T>

    constructor (value: T)
      ensures this.value == value && prev == null && next == null
    {
      this.value := value;
      prev, next := null, null;
    }
  }

  function Values<T>(nodes: seq<Node<T>>): seq<T> {
    seq(|nodes|, i requires 0 <= i < |nodes| => nodes[i].value)
  }

  /** `s` without its element at place `at`. */
  function Cut<T>(s: seq<T>, at: nat): (r: seq<T>)
    requires at < |s|
    ensures |r| == |s| - 1
    ensures forall i :: 0 <= i < |r| ==> r[i] == s[if i < at then i else i + 1]
  {
    s[..at] + s[at + 1..]
  }

  lemma CutDistinct<T>(s: seq<T>, at: nat)
    requires Distinct(s) && at < |s|
    ensures Distinct(Cut(s, at))
  {
  }

  lemma CutValues<T>(nodes: seq<Node<T>>, at: nat)
    requires at < |nodes|
    ensures Values(Cut(nodes, at)) == Cut(Values(nodes), at)
  {
  }

  /** The node at place `i`, null past either end. */
  function Link<T>(nodes: seq<Node<T>>, i: int): Node?<T> {
    if 0 <= i < |nodes| then nodes[i] else null
  }

  ghost predicate Chained<T>(nodes: seq<Node<T>>, i: nat)
    requires i < |nodes|
    reads nodes[i]
  {
    nodes[i].prev == Link(nodes, i - 1) && nodes[i].next == Link(nodes, i + 1)
  }

  class Queue<T(==)> {
    var count: nat
    var head: Node?<T>
    var tail: Node?<T>

    ghost var nodes: seq<Node<T>>

    /** Count, ends and both directions of every link agree with `nodes`. */
    ghost predicate Valid()
      reads this, nodes
    {
      && count == |nodes|
      && Distinct(nodes)
      && head == Link(nodes, 0)
      && tail == Link(nodes, |nodes| - 1)
      && forall i :: 0 <= i < |nodes| ==> Chained(nodes, i)
    }

    ghost function Contents(): seq<T>
      reads this
    {
      Values(nodes)
    }

    /** A queue that was not written, nor any of its nodes, is still in order. */
    twostate lemma Untouched()
      requires old(Valid()) && unchanged(this) && forall n :: n in old(nodes) ==> unchanged(n)
      ensures Valid() && Contents() == old(Contents())
    {
      forall i | 0 <= i < |nodes|
        ensures Chained(nodes, i)
      {
        assert old(Chained(nodes, i)) && nodes[i] in nodes;
      }
    }

    // queue_new
    constructor ()
      ensures Valid() && Contents() == [] && nodes == []
    {
      count, head, tail := 0, null, null;
      nodes := [];
    }

    /** enqueue; without memory for the node nothing happens and NULL is returned. */
    method Enqueue(value: T, memory: bool) returns (node: Node?<T>)
      requires Valid()
      modifies this, nodes
      ensures Valid()
      ensures !memory ==> node == null && nodes == old(nodes)
      ensures memory ==> node != null && fresh(node) && nodes == old(nodes) + [node]
      ensures memory ==> Contents() == old(Contents()) + [value]
    {
      if !memory {
        return null;
      }
      var n := new Node(value);
      assert n !in nodes;
      assert count > 0 ==> Chained(nodes, |nodes| - 1);
      if count == 0 {
        head, tail := n, n;
      } else {
        n.prev := tail;
        tail.next := n;
        tail := n;
      }
      AppendDistinct(nodes, n);
      nodes := nodes + [n];
      count := count + 1;
      node := n;
      forall i | 0 <= i < |nodes|
        ensures Chained(nodes, i)
      {
        assert i < |old(nodes)| ==> old(Chained(nodes, i));
      }
    }

    /** dequeue; an empty queue gives NULL. */
    method Dequeue() returns (value: Option<T>)
      requires Valid()
      modifies this, nodes
      ensures Valid()
      ensures old(Contents()) == [] ==> value == None && nodes == old(nodes)
      ensures old(Contents()) != [] ==> value == Some(old(Contents())[0]) && nodes == old(nodes)[1..]
      ensures old(Contents()) != [] ==> Contents() == old(Contents())[1..]
    {
      if count == 0 {
        return None;
      }
      assert Chained(nodes, 0);
      count := count - 1;
      var first := head;
      head := first.next;
      if head != null {
        head.prev := null;
      }
      if first == tail {
        tail := null;
      }
      value := Some(first.value);
      nodes := nodes[1..];
      forall i | 0 <= i < |nodes|
        ensures Chained(nodes, i)
      {
        assert old(Chained(nodes, i + 1));
      }
    }

    /** queue_node_remove, for a node of this queue. */
    method NodeRemove(node: Node?<T>, ghost at: nat)
      requires Valid()
      requires node != null ==> at < |nodes| && nodes[at] == node
      modifies this, nodes
      ensures Valid()
      ensures nodes == if node == null then old(nodes) else Cut(old(nodes), at)
      ensures Contents() == if node == null then old(Contents()) else Cut(old(Contents()), at)
    {
      if count == 0 || node == null {
        return;
      }
      Bypass(node, at);
      if head == node {
        head := node.next;
      }
      if tail == node {
        tail := node.prev;
      }
      count := count - 1;
      CutValues(nodes, at);
      CutDistinct(nodes, at);
      nodes := Cut(nodes, at);
    }

    /** Links the neighbours of a node to each other. */
    method Bypass(node: Node<T>, ghost at: nat)
      requires Valid() && at < |nodes| && nodes[at] == node
      modifies nodes
      ensures node.prev == old(node.prev) && node.next == old(node.next)
      ensures node.prev == Link(nodes, at - 1) && node.next == Link(nodes, at + 1)
      ensures forall i :: 0 <= i < |nodes| - 1 ==> Chained(Cut(nodes, at), i)
    {
      assert Chained(nodes, at);
      if node.prev != null {
        node.prev.next := node.next;
      }
      if node.next != null {
        node.next.prev := node.prev;
      }
      forall i | 0 <= i < |nodes| - 1
        ensures Chained(Cut(nodes, at), i)
      {
        assert old(Chained(nodes, if i < at then i else i + 1));
      }
    }

    /** queue_remove: only the first node that holds the value goes; the rest keep their order. */
    method Remove(value: T)
      requires Valid()
      modifies this, nodes
      ensures Valid()
      ensures Contents() == Without(old(Contents()), value)
      ensures forall n :: n in nodes ==> n in old(nodes)
    {
      if count == 0 {
        return;
      }
      var node := head;
      ghost var at := 0;
      while node != null
        invariant at <= |nodes| && node == Link(nodes, at)
        invariant value !in Contents()[..at]
        decreases |nodes| - at
      {
        assert Chained(nodes, at);
        if node.value == value {
          WithoutAt(Contents(), at);
          if node.prev == null {
            var _ := Dequeue();
          } else if node.next == null {
            CutLast(at);
          } else {
            CutInner(node, at);
          }
          return;
        }
        node := node.next;
        at := at + 1;
      }
      assert Contents()[..at] == Contents();
      WithoutAbsent(Contents(), value);
    }

    /** The branch of queue_remove for the last node of several. */
    method CutLast(ghost at: nat)
      requires Valid() && 0 < at && at + 1 == |nodes|
      modifies this, nodes
      ensures Valid() && nodes == Cut(old(nodes), at)
      ensures Contents() == Cut(old(Contents()), at)
    {
      assert Chained(nodes, at);
      count := count - 1;
      tail := tail.prev;
      tail.next := null;
      CutValues(nodes, at);
      CutDistinct(nodes, at);
      nodes := Cut(nodes, at);
      forall i | 0 <= i < |nodes|
        ensures Chained(nodes, i)
      {
        assert old(Chained(nodes, i));
      }
    }

    /** The branch of queue_remove for a node with neighbours on both sides. */
    method CutInner(node: Node<T>, ghost at: nat)
      requires Valid() && 0 < at && at + 1 < |nodes| && nodes[at] == node
      modifies this, nodes
      ensures Valid() && nodes == Cut(old(nodes), at)
      ensures Contents() == Cut(old(Contents()), at)
    {
      assert Chained(nodes, at);
      count := count - 1;
      node.prev.next := node.next;
      node.next.prev := node.prev;
      CutValues(nodes, at);
      CutDistinct(nodes, at);
      nodes := Cut(nodes, at);
      forall i | 0 <= i < |nodes|
        ensures Chained(nodes, i)
      {
        assert old(Chained(nodes, if i < at then i else i + 1));
      }
    }

    /** queue_free: every element is dequeued. */
    method Free()
      requires Valid()
      modifies this, nodes
      ensures Valid() && Contents() == [] && head == null && tail == null && count == 0
    {
      ghost var gone := 0;
      while head != null
        invariant Valid() && gone <= |old(nodes)| && nodes == old(nodes)[gone..]
        decreases |nodes|
      {
        assert forall n :: n in nodes ==> n in old(nodes);
        var _ := Dequeue();
        gone := gone + 1;
      }
    }
  }
}
