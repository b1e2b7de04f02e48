/** `List` of include/Util/List.h: a singly linked list that keeps its two ends and its size. */
module LinkedList {
  class ListNode<T> {
    var data: T
    var next: ListNode?<T>

    constructor (data: T)
      ensures this.data == data && next == null
    {
      this.data, next := data, null;
    }
  }

  class List<T> {
    var front: ListNode?<T>
    var back: ListNode?<T>
    var size: int
    ghost var nodes: seq<ListNode<T>>  // from front to back

    /** The nodes from `front` to `back` form a chain without repetition that ends, of `size` nodes. */
    ghost predicate Valid()
      reads this, nodes`next
    {
      && size == |nodes|
      && Chain(nodes)
      && (nodes == [] ==> front == null && back == null)
      && (nodes != [] ==> front == nodes[0] && back == nodes[|nodes| - 1] && nodes[|nodes| - 1].next == null)
    }

    ghost function Contents(): (s: seq<T>)
      reads this, nodes`data
      ensures |s| == |nodes| && forall i :: 0 <= i < |nodes| ==> s[i] == nodes[i].data
    {
      DataOf(nodes)
    }

    /** The last node, if any: the only one that growing at the back changes. */
    ghost function Ends(): (s: set<ListNode<T>>)
      reads this
      ensures forall n :: n in s ==> n in nodes
    {
      if nodes == [] then {} else {nodes[|nodes| - 1]}
    }

    constructor ()
      ensures Valid() && nodes == []
    {
      front, back, size, nodes := null, null, 0, [];
    }

    /** The move constructor. */
    constructor Move(that: List<T>)
      requires that.Valid()
      modifies that
      ensures Valid() && nodes == old(that.nodes) && Contents() == old(that.Contents())
      ensures that.Valid() && that.nodes == []
    {
      front, back, size, nodes := null, null, 0, [];
      new;
      Swap(that);
    }

    predicate Empty()
      requires Valid()
      reads this, nodes
      ensures Empty() <==> Contents() == []
    {
      size == 0
    }

    method EmplaceFront(data: T)
      requires Valid()
      modifies this
      ensures Valid() && Contents() == [data] + old(Contents())
      ensures |nodes| == |old(nodes)| + 1 && nodes[1..] == old(nodes) && fresh(nodes[0])
    {
      var node := new ListNode(data);
      if front == null {
        front, back, size := node, node, 1;
      } else {
        node.next := front;
        front := node;
        size := size + 1;
      }
      nodes := [node] + nodes;
    }

    method EmplaceBack(data: T)
      requires Valid()
      modifies this, Ends()`next
      ensures Valid() && Contents() == old(Contents()) + [data]
      ensures |nodes| == |old(nodes)| + 1 && nodes[..|old(nodes)|] == old(nodes) && fresh(nodes[|old(nodes)|])
    {
      var node := new ListNode(data);
      if back == null {
        back, front, size := node, node, 1;
      } else {
        Link(nodes, [node], back, node);
        back := node;
        size := size + 1;
      }
      nodes := nodes + [node];
    }

    method Front() returns (data: T)
      requires Valid() && Contents() != []
      ensures data == Contents()[0]
    {
      data := front.data;
    }

    method Back() returns (data: T)
      requires Valid() && Contents() != []
      ensures data == Contents()[|Contents()| - 1]
    {
      data := back.data;
    }

    /** `operator[]`. */
    method At(pos: nat) returns (data: T)
      requires Valid() && pos < |Contents()|
      ensures data == Contents()[pos]
    {
      var node, left := front, pos;
      while left > 0
        invariant 0 <= left <= pos && node == nodes[pos - left]
      {
        left := left - 1;
        node := node.next;
      }
      data := node.data;
    }

    method ForEach() returns (visited: seq<T>)
      requires Valid()
      ensures visited == Contents()
    {
      visited := [];
      var node := front;
      while node != null
        invariant |visited| <= |nodes| && visited == Contents()[..|visited|]
        invariant node == if |visited| < |nodes| then nodes[|visited|] else null
        decreases |nodes| - |visited|
      {
        visited := visited + [node.data];
        node := node.next;
      }
    }

    method PopFront()
      requires Valid()
      modifies this
      ensures Valid() && Contents() == (if old(Contents()) == [] then [] else old(Contents())[1..])
      ensures nodes == if old(nodes) == [] then [] else old(nodes)[1..]
    {
      if front == null {
        return;
      }
      front := front.next;
      if front == null {
        back := null;
      }
      size := size - 1;
      nodes := nodes[1..];
    }

    /** Every node is freed, once, and none is looked at after that. */
    method Clear() returns (ghost freed: seq<ListNode<T>>)
      requires Valid()
      modifies this
      ensures Valid() && Contents() == [] && freed == old(nodes)
    {
      freed := [];
      var node := front;
      while node != null
        invariant |freed| <= |nodes| && freed == nodes[..|freed|]
        invariant node == if |freed| < |nodes| then nodes[|freed|] else null
        invariant node != null ==> node !in freed
        decreases |nodes| - |freed|
      {
        var last := node;
        node := node.next;
        freed := freed + [last];
      }
      front, back, size, nodes := null, null, 0, [];
    }

    method Swap(other: List<T>)
      requires Valid() && other.Valid()
      modifies this, other
      ensures Valid() && other.Valid()
      ensures nodes == old(other.nodes) && other.nodes == old(nodes)
      ensures Contents() == old(other.Contents()) && other.Contents() == old(Contents())
    {
      hide Chain, DataOf;
      var node := front;
      front := other.front;
      other.front := node;
      node := back;
      back := other.back;
      other.back := node;
      var count := size;
      size := other.size;
      other.size := count;
      ghost var spine := nodes;
      nodes := other.nodes;
      other.nodes := spine;
    }

    /** All of `other` moves to the end; nothing is copied. */
    method Append(other: List<T>)
      requires Valid() && other.Valid() && other != this && Disjoint(this, other)
      modifies this, other, Ends()`next
      ensures Valid() && other.Valid()
      ensures nodes == old(nodes + other.nodes) && Contents() == old(Contents() + other.Contents())
      ensures other.Contents() == []
    {
      if other.Empty() {
        assert nodes + other.nodes == nodes;
        return;
      }
      hide Chain, DataOf;
      ghost var a, b := nodes, other.nodes;
      assert a == [] ==> a + b == b;
      if back != null {
        Link(a, b, back, other.front);
        back := other.back;
      } else {
        front := other.front;
        back := other.back;
      }
      size := size + other.size;
      nodes := a + b;
      other.front, other.back, other.nodes := null, null, [];
      other.size := 0;
    }
  }

  /** Makes `start`, the first node of `b`, follow `end`, the last of `a`. */
  method Link<T>(ghost a: seq<ListNode<T>>, ghost b: seq<ListNode<T>>, end: ListNode<T>, start: ListNode?<T>)
    requires Chain(a) && Chain(b) && forall n :: n in a ==> n !in b
    requires a != [] && b != [] && end == a[|a| - 1] && start == b[0]
    modifies end`next
    ensures Chain(a + b) && end.next == start
  {
    assert end in a;
    end.next := start;
    ChainJoin(a, b);
  }

  ghost predicate Chain<T>(nodes: seq<ListNode<T>>)
    reads nodes`next
  {
    && (forall i, j :: 0 <= i < j < |nodes| ==> nodes[i] != nodes[j])
    && (forall i :: 0 <= i < |nodes| - 1 ==> nodes[i].next == nodes[i + 1])
  }

  lemma ChainJoin<T>(a: seq<ListNode<T>>, b: seq<ListNode<T>>)
    requires Chain(a) && Chain(b) && forall n :: n in a ==> n !in b
    requires a != [] && b != [] ==> a[|a| - 1].next == b[0]
    ensures Chain(a + b)
  {
    forall i, j | 0 <= i < j < |a + b| ensures (a + b)[i] != (a + b)[j] {
      if i < |a| <= j {
        assert a[i] in a && b[j - |a|] in b;
      }
    }
    forall i | 0 <= i < |a + b| - 1 ensures (a + b)[i].next == (a + b)[i + 1] {
      if i >= |a| {
        assert (a + b)[i] == b[i - |a|] && (a + b)[i + 1] == b[i + 1 - |a|];
      }
    }
  }

  ghost function DataOf<T>(nodes: seq<ListNode<T>>): (s: seq<T>)
    reads nodes`data
    ensures |s| == |nodes| && forall i :: 0 <= i < |nodes| ==> s[i] == nodes[i].data
  {
    if nodes == [] then [] else DataOf(nodes[..|nodes| - 1]) + [nodes[|nodes| - 1].data]
  }

  ghost predicate Disjoint<T>(a: List<T>, b: List<T>)
    reads a, b
  {
    forall n :: n in a.nodes ==> n !in b.nodes
  }

  // Any third list that shares no node with the ones operated on still shares none, and is unchanged.

  method EmplaceBackBeside<T>(a: List<T>, data: T, c: List<T>)
    requires a.Valid() && c.Valid() && c != a && Disjoint(a, c)
    modifies a, a.Ends()`next
    ensures a.Valid() && a.Contents() == old(a.Contents()) + [data]
    ensures c.Valid() && Disjoint(a, c) && c.Contents() == old(c.Contents())
  {
    a.EmplaceBack(data);
    assert forall n :: n in a.nodes ==> n in old(a.nodes) || fresh(n);
  }

  method AppendBeside<T>(a: List<T>, b: List<T>, c: List<T>)
    requires a.Valid() && b.Valid() && c.Valid() && a != b && c != a && c != b
    requires Disjoint(a, b) && Disjoint(a, c) && Disjoint(b, c)
    modifies a, b, a.Ends()`next
    ensures a.Valid() && b.Valid() && a.Contents() == old(a.Contents() + b.Contents()) && b.Contents() == []
    ensures c.Valid() && c.Contents() == old(c.Contents())
    ensures Disjoint(a, b) && Disjoint(a, c) && Disjoint(b, c)
  {
    a.Append(b);
  }
}
