/**
 * The shared transaction buffer: a circular doubly linked queue of nodes in the shared pool.
 * Every operation refines one on the plain sequence of queued rows.
 */
module Buffer {
  import opened Values
  import opened Slab
  import opened Node
  import Lists

  /** The three outcomes of a push. */
  datatype Pushed = Accepted | ReachedMax | Overflow

  /** What a push does to the queue; `fits` says whether the pool had room for the entry. */
  function PushSpec(max: nat, rows: seq<Row>, entry: Row, fits: bool): (seq<Row>, Pushed) {
    if !fits then (rows, Overflow)
    else if max != 0 && |rows| + 1 >= max then (rows + [entry], ReachedMax)
    else (rows + [entry], Accepted)
  }

  ghost function Map<T>(f: Node -> T, nodes: seq<Node>): (r: seq<T>)
    ensures |r| == |nodes|
  {
    seq(|nodes|, i requires 0 <= i < |nodes| => f(nodes[i]))
  }

  ghost function Sum(ms: seq<multiset<nat>>): multiset<nat> {
    if ms == [] then multiset{} else ms[0] + Sum(ms[1..])
  }

  ghost function NodeRow(node: Node): Row {
    RowOf(node.record.elts)
  }

  ghost function NodeBlocks(node: Node): multiset<nat> {
    Footprint(node.record)
  }

  /** The rows held by nodes. */
  ghost function RowsOf(nodes: seq<Node>): (rows: seq<Row>)
    ensures |rows| == |nodes|
  {
    Map(NodeRow, nodes)
  }

  /** The blocks held by nodes, with multiplicity. */
  ghost function BlocksOf(nodes: seq<Node>): multiset<nat> {
    Sum(Map(NodeBlocks, nodes))
  }

  lemma MapAppend<T>(f: Node -> T, a: seq<Node>, b: seq<Node>)
    ensures Map(f, a + b) == Map(f, a) + Map(f, b)
  {
  }

  lemma {:induction false} SumAppend(a: seq<multiset<nat>>, b: seq<multiset<nat>>)
    ensures Sum(a + b) == Sum(a) + Sum(b)
  {
    if a == [] {
      assert a + b == b;
    } else {
      SumAppend(a[1..], b);
      assert (a + b)[1..] == a[1..] + b;
    }
  }

  lemma NodesAppend(a: seq<Node>, b: seq<Node>)
    ensures RowsOf(a + b) == RowsOf(a) + RowsOf(b)
    ensures BlocksOf(a + b) == BlocksOf(a) + BlocksOf(b)
  {
    MapAppend(NodeRow, a, b);
    MapAppend(NodeBlocks, a, b);
    SumAppend(Map(NodeBlocks, a), Map(NodeBlocks, b));
  }

  lemma NoNodes()
    ensures RowsOf([]) == [] && BlocksOf([]) == multiset{}
  {
  }

  lemma OneNode(node: Node)
    ensures RowsOf([node]) == [NodeRow(node)]
    ensures BlocksOf([node]) == NodeBlocks(node)
  {
    assert Map(NodeBlocks, [node]) == [NodeBlocks(node)];
    assert Sum([NodeBlocks(node)]) == NodeBlocks(node) + Sum([]);
  }

  /** How many list pushes and copies it takes to drain rows. */
  function DrainCost(rows: seq<Row>): nat {
    if rows == [] then 0
    else
      var last := rows[|rows| - 1];
      DrainCost(rows[..|rows| - 1]) + |last| + NonNull(last)
  }

  lemma {:induction false} DrainCostOfPrefix(rows: seq<Row>, i: nat)
    requires i <= |rows|
    ensures DrainCost(rows[..i]) <= DrainCost(rows)
    decreases |rows| - i
  {
    if i < |rows| {
      DrainCostOfPrefix(rows, i + 1);
      assert rows[..i + 1][..i] == rows[..i];
    } else {
      assert rows[..i] == rows;
    }
  }

  /** The head, the nodes, and the head again: consecutive elements must be linked both ways. */
  ghost function Ring(head: Node, nodes: seq<Node>): seq<Node> {
    [head] + nodes + [head]
  }

  ghost predicate Linked(head: Node, nodes: seq<Node>)
    reads head, nodes
  {
    var ring := Ring(head, nodes);
    && head !in nodes
    && (forall i, j | 0 <= i < j < |nodes| :: nodes[i] != nodes[j])
    && (forall i | 0 <= i <= |nodes| :: ring[i].next == ring[i + 1])
    && (forall i | 1 <= i <= |nodes| + 1 :: ring[i].prev == ring[i - 1])
  }

  class Buffer {
    const pool: Pool
    const context: nat
    const head: Node
    const max: nat
    var len: int
    ghost var nodes: seq<Node>

    /**
     * The queue is a well-formed ring, its length is on record, and the blocks in use are the
     * context and, all distinct, those of the queued nodes.
     */
    ghost predicate Valid()
      reads this, pool, head, nodes
    {
      && Linked(head, nodes)
      && len == |nodes|
      && multiset(pool.live) == multiset{context} + BlocksOf(nodes)
    }

    /** The queued rows, oldest first. */
    ghost function Contents(): seq<Row>
      reads this
    {
      RowsOf(nodes)
    }

    constructor (pool: Pool, max: nat)
      requires pool.live == {}
      modifies pool`live
      ensures Valid() && Contents() == []
      ensures this.pool == pool && this.max == max && fresh(head)
    {
      var block := pool.Alloc();
      this.pool, this.max, this.context := pool, max, block;
      this.head := new Node(Record(block, block, []));
      this.len, this.nodes := 0, [];
    }

    /** Appends an entry. */
    method PushLocked(entry: Row, memory: nat) returns (rc: Pushed)
      requires Valid() && pool.locked
      modifies this`len, this`nodes, pool`live, head, nodes
      ensures Valid()
      ensures (Contents(), rc) == PushSpec(max, old(Contents()), entry, 2 + NonNull(entry) <= memory)
      ensures rc == Overflow ==> pool.live == old(pool.live)
      ensures forall n | n in nodes :: n in old(nodes) || fresh(n)
    {
      hide Linked, RowsOf, BlocksOf, Footprint, RowOf;
      var node := CreateLocked(entry, pool, memory);
      if node == null {
        return Overflow;
      }
      InsertTail(head, node, nodes);
      assert RowsOf(nodes + [node]) == RowsOf(nodes) + [entry]
          && BlocksOf(nodes + [node]) == BlocksOf(nodes) + Footprint(node.record) by {
        NodesAppend(nodes, [node]);
        OneNode(node);
      }
      nodes := nodes + [node];
      len := len + 1;
      if max != 0 && len >= max {
        return ReachedMax;
      }
      return Accepted;
    }

    /** Puts an entry in front of all others; the maximum is not consulted. */
    method UnshiftLocked(entry: Row, memory: nat) returns (ok: bool)
      requires Valid() && pool.locked
      modifies this`len, this`nodes, pool`live, head, nodes
      ensures Valid()
      ensures ok <==> 2 + NonNull(entry) <= memory
      ensures Contents() == if ok then [entry] + old(Contents()) else old(Contents())
      ensures !ok ==> pool.live == old(pool.live)
      ensures forall n | n in nodes :: n in old(nodes) || fresh(n)
    {
      hide Linked, RowsOf, BlocksOf, Footprint, RowOf;
      var node := CreateLocked(entry, pool, memory);
      if node == null {
        return false;
      }
      InsertHead(head, node, nodes);
      assert RowsOf([node] + nodes) == [entry] + RowsOf(nodes)
          && BlocksOf([node] + nodes) == Footprint(node.record) + BlocksOf(nodes) by {
        NodesAppend([node], nodes);
        OneNode(node);
      }
      nodes := [node] + nodes;
      len := len + 1;
      return true;
    }

    /** Takes the mutex to put an entry in front. */
    method Unshift(entry: Row, memory: nat) returns (ok: bool)
      requires Valid() && !pool.locked
      modifies this`len, this`nodes, pool, head, nodes
      ensures Valid() && !pool.locked
      ensures ok <==> 2 + NonNull(entry) <= memory
      ensures Contents() == if ok then [entry] + old(Contents()) else old(Contents())
    {
      pool.Lock();
      ok := UnshiftLocked(entry, memory);
      pool.Unlock();
    }

    /** Copies the queued values, oldest first; the queue is not touched. */
    method CopyLocked(list: Lists.List<Value>, memory: nat) returns (ok: bool)
      requires Valid() && pool.locked && list.parts == Lists.Empty()
      modifies list
      ensures ok <==> DrainCost(Contents()) <= memory
      ensures ok ==> list.parts == Lists.Relist(list.n, Contents())
    {
      var q, left := head.next, memory;
      assert Ring(head, nodes)[0].next == Ring(head, nodes)[1];
      ghost var k, rows := 0, Contents();
      while q != head
        invariant 0 <= k <= |nodes| && q == Ring(head, nodes)[k + 1]
        invariant list.parts != [] && list.parts == Lists.Relist(list.n, rows[..k])
        invariant left == memory - DrainCost(rows[..k])
        decreases |nodes| - k
      {
        AtNode(head, nodes, k);
        DrainStep(list.n, rows, k);
        DrainCostOfPrefix(rows, k + 1);
        ok, left := CopyNode(q, list, left);
        if !ok {
          return false;
        }
        q := q.next;
        k := k + 1;
      }
      AtHead(head, nodes, k);
      assert rows[..k] == rows;
      return true;
    }

    /** Gives every node back and empties the queue. */
    method ClearLocked()
      requires Valid() && pool.locked
      modifies this`len, this`nodes, pool`live, head
      ensures Valid() && Contents() == []
      ensures pool.live == {context}
    {
      hide RowsOf, BlocksOf, Footprint;
      var q := head.next;
      assert Ring(head, nodes)[0].next == Ring(head, nodes)[1];
      ghost var k := 0;
      assert nodes[k..] == nodes;
      while q != head
        invariant Linked(head, nodes)
        invariant 0 <= k <= |nodes| && q == Ring(head, nodes)[k + 1]
        invariant multiset(pool.live) == multiset{context} + BlocksOf(nodes[k..])
        decreases |nodes| - k
      {
        AtNode(head, nodes, k);
        assert BlocksOf(nodes[k..]) == Footprint(q.record) + BlocksOf(nodes[k + 1..]) by {
          assert nodes[k..] == [q] + nodes[k + 1..];
          NodesAppend([q], nodes[k + 1..]);
          OneNode(q);
        }
        DestroyLocked(q, pool, multiset{context} + BlocksOf(nodes[k + 1..]));
        q := q.next;
        k := k + 1;
      }
      AtHead(head, nodes, k);
      assert nodes[k..] == [];
      NoNodes();
      SameBlocks(pool.live, {context});
      len := 0;
      head.prev, head.next := head, head;
      nodes := [];
    }

    /**
     * Moves the queue out of shared memory into a list with parts of `n` values. It takes all
     * rows, in queue order, and leaves only the context allocated; or it changes nothing.
     */
    method ListLocked(n: nat, memory: nat) returns (parts: Option<Lists.Parts<Value>>)
      requires Valid() && pool.locked
      modifies this`len, this`nodes, pool`live, head
      ensures Valid()
      ensures parts.Some? <==> 1 + DrainCost(old(Contents())) <= memory
      ensures parts.Some? ==>
                && parts.value == Lists.Relist(n, old(Contents()))
                && Contents() == [] && pool.live == {context}
      ensures parts.None? ==>
                && nodes == old(nodes) && len == old(len) && pool.live == old(pool.live)
                && head.next == old(head.next) && head.prev == old(head.prev)
      ensures nodes == [] || nodes == old(nodes)
    {
      if memory == 0 {
        return None;
      }
      var list := new Lists.List<Value>(n);
      var ok := CopyLocked(list, memory - 1);
      if !ok {
        return None;
      }
      ClearLocked();
      return Some(list.parts);
    }
  }

  lemma AtNode(head: Node, nodes: seq<Node>, k: nat)
    requires Linked(head, nodes) && k <= |nodes| && Ring(head, nodes)[k + 1] != head
    ensures k < |nodes| && Ring(head, nodes)[k + 1] == nodes[k]
    ensures nodes[k].next == Ring(head, nodes)[k + 2]
    ensures RowsOf(nodes)[k] == NodeRow(nodes[k])
  {
    assert Ring(head, nodes)[k + 1].next == Ring(head, nodes)[k + 2];
  }

  lemma AtHead(head: Node, nodes: seq<Node>, k: nat)
    requires Linked(head, nodes) && k <= |nodes| && Ring(head, nodes)[k + 1] == head
    ensures k == |nodes|
  {
    forall i | 0 <= i < |nodes|
      ensures nodes[i] != head
    {
      assert nodes[i] in nodes;
    }
  }

  lemma DrainStep(n: nat, rows: seq<Row>, k: nat)
    requires k < |rows|
    ensures Lists.Relist(n, rows[..k + 1]) == Lists.PushAll(n, Lists.Relist(n, rows[..k]), rows[k])
    ensures DrainCost(rows[..k + 1]) == DrainCost(rows[..k]) + |rows[k]| + NonNull(rows[k])
  {
    assert rows[..k + 1][..k] == rows[..k];
    Lists.PushAllAppend(n, Lists.Empty(), Lists.Flatten(rows[..k]), rows[k]);
  }

  // ---------------------------------------------------------------- draining

  /** Copies the values of one node to the end of a list. */
  method CopyNode(node: Node, list: Lists.List<Value>, memory: nat) returns (ok: bool, left: nat)
    requires list.parts != []
    modifies list
    ensures list.parts != []
    ensures ok <==> |NodeRow(node)| + NonNull(NodeRow(node)) <= memory
    ensures ok ==> list.parts == Lists.PushAll(list.n, old(list.parts), NodeRow(node))
    ensures ok ==> left == memory - |NodeRow(node)| - NonNull(NodeRow(node))
  {
    ghost var row, start := NodeRow(node), list.parts;
    var elts := node.record.elts;
    left := memory;
    var i := 0;
    while i < |elts|
      invariant 0 <= i <= |elts|
      invariant list.parts == Lists.PushAll(list.n, start, row[..i])
      invariant left == memory - i - NonNull(row[..i])
    {
      NonNullSnoc(row, i);
      NonNullOfPrefix(row, i + 1);
      assert row[..i + 1][..i] == row[..i];
      if left == 0 {
        return false, left;
      }
      left := left - 1;
      if elts[i] == Nil {
        list.Add(None);
      } else {
        if left == 0 {
          return false, left;
        }
        left := left - 1;
        list.Add(Some(elts[i].bytes));
      }
      i := i + 1;
    }
    assert row[..i] == row;
    return true, left;
  }

  /** ngx_queue_insert_tail */
  method InsertTail(head: Node, x: Node, ghost nodes: seq<Node>)
    requires Linked(head, nodes) && x != head && x !in nodes
    modifies head, x, nodes
    ensures Linked(head, nodes + [x])
  {
    ghost var ring := Ring(head, nodes);
    assert ring[|nodes| + 1].prev == ring[|nodes|];
    x.prev := head.prev;
    x.prev.next := x;
    x.next := head;
    head.prev := x;
    ghost var grown := Ring(head, nodes + [x]);
    assert grown == ring[..|nodes| + 1] + [x, head];
  }

  /** ngx_queue_insert_head */
  method InsertHead(head: Node, x: Node, ghost nodes: seq<Node>)
    requires Linked(head, nodes) && x != head && x !in nodes
    modifies head, x, nodes
    ensures Linked(head, [x] + nodes)
  {
    ghost var ring := Ring(head, nodes);
    assert ring[0].next == ring[1];
    x.next := head.next;
    x.next.prev := x;
    x.prev := head;
    head.next := x;
    ghost var grown := Ring(head, [x] + nodes);
    assert grown == [head, x] + ring[1..];
  }
}
