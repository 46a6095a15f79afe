/**
 include/list.h: the circular doubly linked list whose links are part of its elements.
 A list is a head node and the sequence of the nodes in it; everything below changes the links in
 place and says what becomes of that sequence.
 */
module List {
  import opened Common

  /** struct list_node. */
  class Node {
    var prev: Node?
    var next: Node?

    /** An element that is in no list, list_clear_node. */
    constructor ()
      ensures prev == null && next == null
    {
      prev, next := null, null;
    }
  }

  /** The links lead from the head through the nodes of s and back, in both directions. */
  ghost predicate IsList(head: Node, s: seq<Node>)
    reads head, s
  {
    && head !in s && Distinct(s)
    && forall i :: 0 <= i <= |s| ==> Linked(head, s, i)
  }

  /** The node at position i of the ring and the one behind it point at each other. */
  ghost predicate Linked(head: Node, s: seq<Node>, i: nat)
    requires i <= |s|
    reads head, s
  {
    At(head, s, i).next == At(head, s, i + 1) && At(head, s, i + 1).prev == At(head, s, i)
  }

  /** The nodes of the ring by position: the head is both at 0 and behind the last node. */
  function At(head: Node, s: seq<Node>, i: nat): (n: Node)
    requires i <= |s| + 1
    ensures n == head || n in s
  {
    if i == 0 || i == |s| + 1 then head else s[i - 1]
  }

  /** The links determine the sequence. */
  lemma {:induction false} ListUnique(head: Node, s: seq<Node>, t: seq<Node>, n: nat)
    requires IsList(head, s) && IsList(head, t) && n <= |s| && n <= |t|
    ensures s[..n] == t[..n]
    ensures n == |s| ==> |t| == n
    decreases n
  {
    if n > 0 {
      ListUnique(head, s, t, n - 1);
      assert Linked(head, s, n - 1) && Linked(head, t, n - 1);
    }
    assert Linked(head, s, n) && Linked(head, t, n);
  }

  /** list_initialize. */
  method Initialize(head: Node)
    modifies head
    ensures IsList(head, [])
  {
    head.prev, head.next := head, head;
  }

  /** list_clear_node. */
  method ClearNode(item: Node)
    modifies item
    ensures item.prev == null && item.next == null
  {
    item.prev, item.next := null, null;
  }

  /** list_in_list: right for a node that is in the list or was cleared. */
  method InList(item: Node, ghost head: Node, ghost s: seq<Node>) returns (r: bool)
    requires IsList(head, s) && (item in s || (item.prev == null && item.next == null))
    ensures r <==> item in s
  {
    if item in s {
      ghost var i :| 0 <= i < |s| && s[i] == item;
      assert Linked(head, s, i);
    }
    r := !(item.prev == null && item.next == null);
  }

  /** list_add_head, which is list_add_after when node is not the head but the k-th of the ring. */
  method AddHead(node: Node, item: Node, ghost head: Node, ghost s: seq<Node>, ghost k: nat) returns (ghost t: seq<Node>)
    requires IsList(head, s) && k <= |s| && node == At(head, s, k)
    requires item != head && item !in s
    modifies {node, node.next, item}
    ensures t == s[..k] + [item] + s[k..] && IsList(head, t)
  {
    assert Linked(head, s, k);
    t := s[..k] + [item] + s[k..];
    item.next := node.next;
    item.prev := node;
    var next: Node := node.next;
    next.prev := item;
    node.next := item;
    forall i | 0 <= i <= |t|
      ensures Linked(head, t, i)
    {
      assert i < k ==> old(Linked(head, s, i));
      assert i > k + 1 ==> old(Linked(head, s, i - 1));
    }
  }

  /** list_add_tail, which is list_add_before when node is not the head. */
  method AddTail(node: Node, item: Node, ghost head: Node, ghost s: seq<Node>, ghost k: nat) returns (ghost t: seq<Node>)
    requires IsList(head, s) && k <= |s| && node == At(head, s, k + 1)
    requires item != head && item !in s
    modifies {node, node.prev, item}
    ensures t == s[..k] + [item] + s[k..] && IsList(head, t)
  {
    assert Linked(head, s, k);
    t := s[..k] + [item] + s[k..];
    item.prev := node.prev;
    item.next := node;
    var prev: Node := node.prev;
    prev.next := item;
    node.prev := item;
    forall i | 0 <= i <= |t|
      ensures Linked(head, t, i)
    {
      assert i < k ==> old(Linked(head, s, i));
      assert i > k + 1 ==> old(Linked(head, s, i - 1));
    }
  }

  /** list_delete, of the node at position k. */
  method Delete(item: Node, ghost head: Node, ghost s: seq<Node>, ghost k: nat) returns (ghost t: seq<Node>)
    requires IsList(head, s) && k < |s| && s[k] == item
    modifies {item, item.prev, item.next}
    ensures t == s[..k] + s[k + 1..] && IsList(head, t)
    ensures item.prev == null && item.next == null && item !in t
  {
    assert Linked(head, s, k) && Linked(head, s, k + 1);
    t := s[..k] + s[k + 1..];
    var prev: Node, next: Node := item.prev, item.next;
    next.prev := prev;
    prev.next := next;
    item.prev, item.next := null, null;
    forall i | 0 <= i <= |t|
      ensures Linked(head, t, i)
    {
      assert i < k ==> old(Linked(head, s, i));
      assert i > k ==> old(Linked(head, s, i + 1));
    }
  }

  /** list_remove_head. */
  method RemoveHead(head: Node, ghost s: seq<Node>) returns (item: Node?, ghost t: seq<Node>)
    requires IsList(head, s)
    modifies head, s
    ensures IsList(head, t)
    ensures if s == [] then item == null && t == [] else item == s[0] && t == s[1..]
    ensures s != [] ==> s[0].prev == null && s[0].next == null
  {
    assert Linked(head, s, 0);
    if head.next != head {
      var first: Node := head.next;
      assert Linked(head, s, 1);
      t := Delete(first, head, s, 0);
      return first, t;
    }
    return null, s;
  }

  /** list_length. */
  method Length(head: Node, ghost s: seq<Node>) returns (cnt: nat)
    requires IsList(head, s)
    ensures cnt == |s|
  {
    cnt := 0;
    assert Linked(head, s, 0);
    var node := head.next;
    while node != head
      invariant cnt <= |s| && node == At(head, s, cnt + 1)
      decreases |s| - cnt
    {
      assert Linked(head, s, cnt + 1);
      cnt := cnt + 1;
      node := node.next;
    }
  }
}
