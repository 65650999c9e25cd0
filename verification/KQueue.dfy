/**
  The kernel queue: an intrusive doubly linked list, pushed at its head and
  popped at its tail, or kept sorted by a 32-bit key.
*/
module KQueue {
  import opened Digits

  // ----- what the operations mean on the sequence from head to tail

  /** Where a node with the given key goes: before the first key that is not larger. */
  function Position(keys: seq<u32>, key: u32): (k: int)
    ensures 0 <= k <= |keys|
    ensures forall i :: 0 <= i < k ==> keys[i] > key
    ensures k < |keys| ==> keys[k] <= key
  {
    if keys == [] || keys[0] <= key then 0 else 1 + Position(keys[1..], key)
  }

  function Insert<T>(q: seq<T>, k: int, x: T): seq<T>
    requires 0 <= k <= |q|
  {
    q[..k] + [x] + q[k..]
  }

  function Delete<T>(q: seq<T>, k: int): seq<T>
    requires 0 <= k < |q|
  {
    q[..k] + q[k + 1..]
  }

  /** Keys fall from head to tail, so that the tail pops the smallest. */
  ghost predicate Falling(keys: seq<u32>) {
    forall i, j :: 0 <= i < j < |keys| ==> keys[i] >= keys[j]
  }

  lemma InsertAt<T>(q: seq<T>, k: int, x: T)
    requires 0 <= k <= |q|
    ensures var q' := Insert(q, k, x);
            && |q'| == |q| + 1
            && forall i :: 0 <= i <= |q| ==> q'[i] == if i < k then q[i] else if i == k then x else q[i - 1]
  {
  }

  lemma InsertIndex<T>(q: seq<T>, k: int, x: T, i: int)
    requires 0 <= k <= |q| && 0 <= i <= |q|
    ensures |Insert(q, k, x)| == |q| + 1 && Insert(q, k, x)[i] == if i < k then q[i] else if i == k then x else q[i - 1]
  {
  }

  lemma DeleteIndex<T>(q: seq<T>, k: int, i: int)
    requires 0 <= k < |q| && 0 <= i < |q| - 1
    ensures |Delete(q, k)| == |q| - 1 && Delete(q, k)[i] == if i < k then q[i] else q[i + 1]
  {
  }

  lemma InsertFirst<T>(x: T)
    ensures Insert([], 0, x) == [x]
  {
  }

  lemma DeleteLength<T>(q: seq<T>, k: int)
    requires 0 <= k < |q|
    ensures |Delete(q, k)| == |q| - 1
  {
  }

  /** A sorted insert keeps the order, and a new key pops after every equal key already there. */
  lemma InsertFalling(keys: seq<u32>, key: u32)
    requires Falling(keys)
    ensures var k := Position(keys, key);
            && Falling(Insert(keys, k, key))
            && forall i :: 0 <= i < |keys| && keys[i] == key ==> k <= i
  {
    var k := Position(keys, key);
    InsertAt(keys, k, key);
    hide Insert, Position;
  }

  lemma PositionUnique(keys: seq<u32>, key: u32, k: int)
    requires 0 <= k <= |keys| && (forall i :: 0 <= i < k ==> keys[i] > key) && (k < |keys| ==> keys[k] <= key)
    ensures k == Position(keys, key)
  {
  }

  // ----- the linked list

  class Node {
    var next: Node?
    var prev: Node?
    var enlisted: bool
    var priority: u32
    const data: int

    constructor (data: int)
      ensures this.data == data && next == null == prev && !enlisted && priority == 0
    {
      this.data := data;
      next, prev, enlisted, priority := null, null, false, 0;
    }
  }

  /** The k-th node is linked to its neighbours. */
  ghost predicate Linked(nodes: seq<Node>, k: int)
    requires 0 <= k < |nodes|
    reads nodes[k]
  {
    && nodes[k].next == Behind(nodes, k)
    && nodes[k].prev == Before(nodes, k)
    && nodes[k].enlisted
  }

  function Behind(nodes: seq<Node>, k: int): Node?
    requires -1 <= k < |nodes|
  {
    if k + 1 < |nodes| then nodes[k + 1] else null
  }

  function Before(nodes: seq<Node>, k: int): Node?
    requires 0 <= k <= |nodes|
  {
    if k > 0 then nodes[k - 1] else null
  }

  ghost predicate Distinct(nodes: seq<Node>) {
    forall i, j :: 0 <= i < j < |nodes| ==> nodes[i] != nodes[j]
  }

  ghost function Keys(nodes: seq<Node>): (keys: seq<u32>)
    reads nodes
    ensures |keys| == |nodes| && forall i :: 0 <= i < |nodes| ==> keys[i] == nodes[i].priority
  {
    seq(|nodes|, i requires 0 <= i < |nodes| reads nodes => nodes[i].priority)
  }

  lemma DistinctInsert(q: seq<Node>, k: int, node: Node)
    requires Distinct(q) && node !in q && 0 <= k <= |q|
    ensures Distinct(Insert(q, k, node))
  {
    var q' := Insert(q, k, node);
    forall i, j | 0 <= i < j < |q'|
      ensures q'[i] != q'[j]
    {
      InsertIndex(q, k, node, i);
      InsertIndex(q, k, node, j);
    }
  }

  lemma DistinctDelete(q: seq<Node>, k: int)
    requires Distinct(q) && 0 <= k < |q|
    ensures Distinct(Delete(q, k))
  {
    var q' := Delete(q, k);
    forall i, j | 0 <= i < j < |q'|
      ensures q'[i] != q'[j]
    {
      DeleteIndex(q, k, i);
      DeleteIndex(q, k, j);
    }
  }

  lemma DistinctPair(q: seq<Node>, i: int, j: int)
    requires Distinct(q) && 0 <= i < |q| && 0 <= j < |q|
    ensures q[i] == q[j] <==> i == j
  {
  }

  /** The links of the o-th node once another one was linked in at position k. */
  ghost predicate LinkedAround(q: seq<Node>, k: int, node: Node, o: int)
    requires 0 <= k <= |q| && 0 <= o < |q|
    reads q[o]
  {
    && q[o].next == (if o == k - 1 then node else Behind(q, o))
    && q[o].prev == (if o == k then node else Before(q, o))
    && q[o].enlisted
  }

  lemma InsertLinks(q: seq<Node>, k: int, node: Node)
    requires 0 <= k <= |q| && forall o :: 0 <= o < |q| ==> LinkedAround(q, k, node, o)
    requires node.next == Behind(q, k - 1) && node.prev == Before(q, k) && node.enlisted
    ensures var q' := Insert(q, k, node); forall i :: 0 <= i < |q'| ==> Linked(q', i)
  {
    hide Insert;
    InsertIndex(q, k, node, k);
    var q' := Insert(q, k, node);
    forall i | 0 <= i < |q'|
      ensures Linked(q', i)
    {
      InsertIndex(q, k, node, i);
      if i > 0 { InsertIndex(q, k, node, i - 1); }
      if i < |q| { InsertIndex(q, k, node, i + 1); }
      if i != k { assert LinkedAround(q, k, node, if i < k then i else i - 1); }
    }
  }

  /** The links of the o-th node once the k-th was unlinked. */
  ghost predicate LinkedAcross(q: seq<Node>, k: int, o: int)
    requires 0 <= k < |q| && 0 <= o < |q|
    reads q[o]
  {
    && q[o].next == (if o == k - 1 then Behind(q, k) else Behind(q, o))
    && q[o].prev == (if o == k + 1 then Before(q, k) else Before(q, o))
    && q[o].enlisted
  }

  lemma DeleteLinks(q: seq<Node>, k: int)
    requires 0 <= k < |q| && forall o :: 0 <= o < |q| && o != k ==> LinkedAcross(q, k, o)
    ensures var q' := Delete(q, k); forall i :: 0 <= i < |q'| ==> Linked(q', i)
  {
    hide Delete;
    DeleteLength(q, k);
    var q' := Delete(q, k);
    forall i | 0 <= i < |q'|
      ensures Linked(q', i)
    {
      DeleteIndex(q, k, i);
      if i > 0 { DeleteIndex(q, k, i - 1); }
      if i + 1 < |q'| { DeleteIndex(q, k, i + 1); }
      assert LinkedAcross(q, k, if i < k then i else i + 1);
    }
  }

  lemma KeysSame(keys: seq<u32>, nodes: seq<Node>)
    requires |keys| == |nodes| && forall i :: 0 <= i < |nodes| ==> keys[i] == nodes[i].priority
    ensures Keys(nodes) == keys
  {
  }

  /** What the queue asserts after linking a node. */
  ghost predicate NoCycle(node: Node)
    reads node
  {
    node.next != node.prev || node.next == null || node.prev == null
  }

  class Queue {
    var head: Node?
    var tail: Node?
    var size: u32

    ghost var nodes: seq<Node>
    ghost var removed: nat

    ghost predicate Valid()
      reads this, nodes
    {
      && Distinct(nodes)
      && (forall k :: 0 <= k < |nodes| ==> Linked(nodes, k))
      && head == (if nodes == [] then null else nodes[0])
      && tail == (if nodes == [] then null else nodes[|nodes| - 1])
      && size == U32(|nodes| + removed)
    }

    constructor ()
      ensures Valid() && nodes == [] && removed == 0
    {
      head, tail, size := null, null, 0;
      nodes, removed := [], 0;
    }

    /** kqueue_push */
    method Push(node: Node)
      requires Valid() && node !in nodes
      modifies this, nodes, node
      ensures Valid() && nodes == [node] + old(nodes) && removed == old(removed)
      ensures node.priority == old(node.priority) && forall n :: n in old(nodes) ==> n.priority == old(n.priority)
    {
      if head == null {
        head := node;
        tail := node;
        node.next := null;
        node.prev := null;
      } else {
        assert Linked(nodes, 0);
        node.next := head;
        node.prev := null;
        head.prev := node;
        head := node;
      }
      size := U32(size + 1);
      node.enlisted := true;
      nodes := [node] + nodes;
      forall i | 0 <= i < |nodes|
        ensures Linked(nodes, i)
      {
        if i > 0 { assert old(Linked(nodes, i - 1)); }
      }
      assert NoCycle(node);
    }

    /** The walk of kqueue_push_prio to the first key that is not larger. */
    method Seek(priority: u32) returns (cursor: Node?, ghost k: int)
      requires Valid()
      ensures 0 <= k <= |nodes| && k == Position(Keys(nodes), priority)
      ensures cursor == if k < |nodes| then nodes[k] else null
    {
      cursor, k := head, 0;
      while cursor != null && cursor.priority > priority
        invariant 0 <= k <= |nodes| && cursor == if k < |nodes| then nodes[k] else null
        invariant forall i :: 0 <= i < k ==> nodes[i].priority > priority
        decreases |nodes| - k
      {
        assert Linked(nodes, k);
        cursor := cursor.next;
        k := k + 1;
      }
      PositionUnique(Keys(nodes), priority, k);
    }

    /** Linking a node in front of a cursor. */
    method LinkBefore(node: Node, cursor: Node, ghost k: int)
      requires Valid() && node !in nodes && 0 <= k < |nodes| && cursor == nodes[k]
      modifies this, nodes, node
      ensures Valid() && removed == old(removed) && nodes == Insert(old(nodes), k, node)
      ensures node.next == cursor != node.prev
      ensures forall n :: n in old(nodes) || n == node ==> n.priority == old(n.priority)
    {
      hide Insert, Distinct, LinkedAround;
      ghost var q := nodes;
      DistinctInsert(q, k, node);
      InsertIndex(q, k, node, 0);
      InsertIndex(q, k, node, |q|);
      Hook(node, cursor, k);
      size := U32(size + 1);
      nodes := Insert(nodes, k, node);
      InsertLinks(q, k, node);
    }

    /** The links around a cursor once a node stands in front of it. */
    method Hook(node: Node, cursor: Node, ghost k: int)
      requires Valid() && node !in nodes && 0 <= k < |nodes| && cursor == nodes[k]
      modifies this`head, nodes, node
      ensures forall o :: 0 <= o < |nodes| ==> LinkedAround(nodes, k, node, o)
      ensures node.next == cursor != node.prev && node.prev == Before(nodes, k) && node.enlisted
      ensures head == if k > 0 then old(head) else node
      ensures forall n :: n in nodes || n == node ==> n.priority == old(n.priority)
    {
      hide Distinct;
      ghost var q := nodes;
      assert Linked(q, k);
      if k > 0 {
        assert Linked(q, k - 1);
        DistinctPair(q, k - 1, k);
      }
      node.next := cursor;
      node.prev := cursor.prev;
      cursor.prev := node;
      if node.prev != null {
        node.prev.next := node;
      } else {
        head := node;
      }
      node.enlisted := true;
      forall o | 0 <= o < |q|
        ensures LinkedAround(q, k, node, o)
      {
        assert old(Linked(q, o));
        DistinctPair(q, o, k);
        if k > 0 { DistinctPair(q, o, k - 1); }
      }
    }

    /** Linking a node behind the tail. */
    method LinkTail(node: Node)
      requires Valid() && node !in nodes && nodes != []
      modifies this, nodes, node
      ensures Valid() && removed == old(removed) && nodes == Insert(old(nodes), |old(nodes)|, node)
      ensures node.next == null
      ensures forall n :: n in old(nodes) || n == node ==> n.priority == old(n.priority)
    {
      hide Insert, Distinct;
      ghost var q := nodes;
      DistinctInsert(q, |q|, node);
      InsertIndex(q, |q|, node, 0);
      InsertIndex(q, |q|, node, |q|);
      assert Linked(q, |q| - 1);
      node.prev := tail;
      node.next := null;
      tail.next := node;
      tail := node;
      size := U32(size + 1);
      node.enlisted := true;
      nodes := Insert(nodes, |q|, node);
      forall o | 0 <= o < |q|
        ensures LinkedAround(q, |q|, node, o)
      {
        assert old(Linked(q, o));
        DistinctPair(q, o, |q| - 1);
      }
      InsertLinks(q, |q|, node);
    }

    /** Linking the first node. */
    method LinkFirst(node: Node)
      requires Valid() && nodes == []
      modifies this, node
      ensures Valid() && removed == old(removed) && nodes == [node]
      ensures node.next == null && node.priority == old(node.priority)
    {
      head := node;
      tail := node;
      node.next := null;
      node.prev := null;
      size := U32(size + 1);
      node.enlisted := true;
      nodes := [node];
    }

    /** kqueue_push_prio */
    method PushPrio(node: Node, priority: u32)
      requires Valid() && node !in nodes
      modifies this, nodes, node
      ensures Valid() && removed == old(removed)
      ensures nodes == Insert(old(nodes), Position(old(Keys(nodes)), priority), node)
      ensures node.priority == priority && forall n :: n in old(nodes) ==> n.priority == old(n.priority)
    {
      hide Insert, Distinct, Linked, Position;
      node.priority := priority;
      if head == null {
        PositionUnique(old(Keys(nodes)), priority, 0);
        InsertFirst(node);
        LinkFirst(node);
      } else {
        KeysSame(old(Keys(nodes)), nodes);
        var cursor;
        ghost var k;
        cursor, k := Seek(priority);
        if cursor != null {
          LinkBefore(node, cursor, k);
        } else {
          LinkTail(node);
        }
      }
      assert NoCycle(node);
    }

    /** kqueue_pop */
    method Pop() returns (node: Node?)
      requires Valid()
      modifies this, nodes
      ensures Valid() && removed == old(removed)
      ensures old(nodes) == [] ==> node == null && nodes == []
      ensures old(nodes) != [] ==> node == old(nodes)[|old(nodes)| - 1] && nodes == old(nodes)[..|old(nodes)| - 1]
      ensures node != null ==> !node.enlisted && node.next == null == node.prev
      ensures forall n :: n in old(nodes) ==> n.priority == old(n.priority)
    {
      if head == null {
        return null;
      }
      node := tail;
      assert Linked(nodes, |nodes| - 1);
      if node.prev != null {
        node.prev.next := null;
        tail := node.prev;
      } else {
        head := null;
        tail := null;
      }
      size := U32(size - 1);
      node.next := null;
      node.prev := null;
      node.enlisted := false;
      nodes := nodes[..|nodes| - 1];
      forall i | 0 <= i < |nodes|
        ensures Linked(nodes, i)
      {
        assert old(Linked(nodes, i));
      }
    }

    /** kqueue_find: the node with the data that is nearest to the head. */
    method Find(data: int) returns (node: Node?)
      requires Valid()
      ensures node == null <==> forall n :: n in nodes ==> n.data != data
      ensures node != null ==>
                exists k :: 0 <= k < |nodes| && nodes[k] == node && node.data == data
                            && forall i :: 0 <= i < k ==> nodes[i].data != data
    {
      node := head;
      ghost var k := 0;
      while node != null && node.data != data
        invariant 0 <= k <= |nodes| && node == if k < |nodes| then nodes[k] else null
        invariant forall i :: 0 <= i < k ==> nodes[i].data != data
        decreases |nodes| - k
      {
        assert Linked(nodes, k);
        node := node.next;
        k := k + 1;
      }
    }

    /** kqueue_remove: the node leaves the list, but size still counts it. */
    method Remove(node: Node)
      requires Valid() && node in nodes
      modifies this, nodes
      ensures Valid() && removed == old(removed) + 1 && size == old(size)
      ensures exists k :: 0 <= k < |old(nodes)| && old(nodes)[k] == node && nodes == Delete(old(nodes), k)
      ensures !node.enlisted && node.next == null == node.prev
      ensures forall n :: n in old(nodes) ==> n.priority == old(n.priority)
    {
      var cursor := head;
      ghost var k := 0;
      while cursor != null && cursor != node
        invariant 0 <= k <= |nodes| && cursor == if k < |nodes| then nodes[k] else null
        invariant forall i :: 0 <= i < k ==> nodes[i] != node
        decreases |nodes| - k
      {
        assert Linked(nodes, k);
        cursor := cursor.next;
        k := k + 1;
      }
      Unlink(node, k);
    }

    method Unlink(cursor: Node, ghost k: int)
      requires Valid() && 0 <= k < |nodes| && nodes[k] == cursor
      modifies this, nodes
      ensures Valid() && removed == old(removed) + 1 && size == old(size)
      ensures nodes == Delete(old(nodes), k)
      ensures !cursor.enlisted && cursor.next == null == cursor.prev
      ensures forall n :: n in old(nodes) ==> n.priority == old(n.priority)
    {
      hide Delete, Distinct, LinkedAcross;
      ghost var q := nodes;
      DistinctDelete(q, k);
      DeleteLength(q, k);
      if |q| > 1 {
        DeleteIndex(q, k, 0);
        DeleteIndex(q, k, |q| - 2);
      }
      Bypass(cursor, k);
      nodes := Delete(nodes, k);
      removed := removed + 1;
      DeleteLinks(q, k);
    }

    /** The neighbours of a node are linked across it. */
    method Bypass(cursor: Node, ghost k: int)
      requires Valid() && 0 <= k < |nodes| && nodes[k] == cursor
      modifies this`head, this`tail, nodes
      ensures forall o :: 0 <= o < |nodes| && o != k ==> LinkedAcross(nodes, k, o)
      ensures head == if k > 0 then nodes[0] else Behind(nodes, k)
      ensures tail == if k + 1 < |nodes| then nodes[|nodes| - 1] else Before(nodes, k)
      ensures !cursor.enlisted && cursor.next == null == cursor.prev
      ensures forall n :: n in nodes ==> n.priority == old(n.priority)
    {
      hide Distinct;
      ghost var q := nodes;
      if k > 0 { DistinctPair(q, k, k - 1); }
      if k + 1 < |q| { DistinctPair(q, k, k + 1); }
      if 0 < k < |q| - 1 { DistinctPair(q, k - 1, k + 1); }
      assert Linked(q, k);
      assert k > 0 ==> Linked(q, k - 1);
      assert k + 1 < |q| ==> Linked(q, k + 1);
      if cursor.prev != null && cursor.next != null {
        cursor.prev.next := cursor.next;
        cursor.next.prev := cursor.prev;
      } else if cursor.prev == null && cursor.next != null {
        head := cursor.next;
        cursor.next.prev := null;
      } else if cursor.prev != null && cursor.next == null {
        tail := cursor.prev;
        cursor.prev.next := null;
      } else {
        head := null;
        tail := null;
      }
      cursor.next := null;
      cursor.prev := null;
      cursor.enlisted := false;
      forall o | 0 <= o < |q| && o != k
        ensures LinkedAcross(q, k, o)
      {
        assert old(Linked(q, o));
        DistinctPair(q, o, k);
        if k > 0 { DistinctPair(q, o, k - 1); }
        if k + 1 < |q| { DistinctPair(q, o, k + 1); }
      }
    }
  }
}
