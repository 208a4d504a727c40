/** Queue nodes: a log entry copied into blocks of the shared pool. */
module Node {
  import opened Values
  import opened Slab

  /** A value inside a node: NULL, or a block with its bytes. */
  datatype Elt = Nil | Data(block: nat, bytes: seq<byte>)

  /** The blocks of a node: the structure, the array of values, and the values themselves. */
  datatype Record = Record(block: nat, eltsBlock: nat, elts: seq<Elt>)

  function ValueOf(e: Elt): Value {
    match e
    case Nil => None
    case Data(_, bytes) => Some(bytes)
  }

  function RowOf(elts: seq<Elt>): (row: Row)
    ensures |row| == |elts|
    ensures forall i | 0 <= i < |elts| :: row[i] == ValueOf(elts[i])
  {
    if elts == [] then [] else RowOf(elts[..|elts| - 1]) + [ValueOf(elts[|elts| - 1])]
  }

  ghost function EltBlocks(e: Elt): multiset<nat> {
    match e
    case Nil => multiset{}
    case Data(block, _) => multiset{block}
  }

  ghost function DataBlocks(elts: seq<Elt>): multiset<nat> {
    if elts == [] then multiset{} else EltBlocks(elts[0]) + DataBlocks(elts[1..])
  }

  /** One block for the node, one for its array, one per value that is not NULL. */
  ghost function Footprint(r: Record): multiset<nat> {
    multiset{r.block} + multiset{r.eltsBlock} + DataBlocks(r.elts)
  }

  lemma {:induction false} DataBlocksAppend(elts: seq<Elt>, e: Elt)
    ensures DataBlocks(elts + [e]) == DataBlocks(elts) + EltBlocks(e)
  {
    hide EltBlocks;
    if elts == [] {
      assert elts + [e] == [e] && DataBlocks([e]) == EltBlocks(e) + DataBlocks([]);
    } else {
      DataBlocksAppend(elts[1..], e);
      assert (elts + [e])[1..] == elts[1..] + [e];
      assert DataBlocks(elts + [e]) == EltBlocks(elts[0]) + (DataBlocks(elts[1..]) + EltBlocks(e));
    }
  }

  /** The footprint of a node has one block per value that is not NULL, plus two. */
  lemma {:induction false} FootprintSize(r: Record)
    ensures |Footprint(r)| == 2 + NonNull(RowOf(r.elts))
  {
    DataBlocksSize(r.elts);
  }

  lemma {:induction false} DataBlocksSize(elts: seq<Elt>)
    ensures |DataBlocks(elts)| == NonNull(RowOf(elts))
    decreases |elts|
  {
    if elts != [] {
      var init, e := elts[..|elts| - 1], elts[|elts| - 1];
      DataBlocksSize(init);
      assert elts == init + [e];
      DataBlocksAppend(init, e);
      assert |EltBlocks(e)| == if ValueOf(e).Some? then 1 else 0;
      hide EltBlocks;
      assert RowOf(elts)[..|elts| - 1] == RowOf(init);
    }
  }

  /** A node on the queue, or the queue's own head. */
  class Node {
    const record: Record
    var prev: Node
    var next: Node

    constructor (record: Record)
      ensures this.record == record && prev == this && next == this
    {
      this.record := record;
      prev, next := this, this;
    }
  }

  /** Copies one value; NULL needs no memory. */
  method CopyValue(value: Value, pool: Pool, memory: nat) returns (e: Option<Elt>)
    modifies pool`live
    ensures e == None <==> NonNull([value]) > memory
    ensures e == None ==> pool.live == old(pool.live)
    ensures e.Some? ==>
              && ValueOf(e.value) == value
              && multiset(pool.live) == multiset(old(pool.live)) + EltBlocks(e.value)
  {
    if value == None {
      return Some(Nil);
    }
    if memory == 0 {
      return None;
    }
    var block := pool.Alloc();
    return Some(Data(block, value.value));
  }

  /** Copies the values one by one, up to the first one for which there is no memory. */
  method CopyValues(values: Row, pool: Pool, memory: nat) returns (elts: seq<Elt>, left: nat)
    modifies pool`live
    ensures |elts| <= |values| && RowOf(elts) == values[..|elts|]
    ensures |elts| == |values| <==> NonNull(values) <= memory
    ensures |elts| == |values| ==> left == memory - NonNull(values)
    ensures multiset(pool.live) == multiset(old(pool.live)) + DataBlocks(elts)
  {
    elts, left := [], memory;
    while |elts| < |values|
      invariant |elts| <= |values|
      invariant RowOf(elts) == values[..|elts|]
      invariant left == memory - NonNull(values[..|elts|])
      invariant multiset(pool.live) == multiset(old(pool.live)) + DataBlocks(elts)
    {
      var i := |elts|;
      var value := values[i];
      NonNullSnoc(values, i);
      var e := CopyValue(value, pool, left);
      if e == None {
        NonNullOfPrefix(values, i + 1);
        return;
      }
      left := left - (if value == None then 0 else 1);
      DataBlocksAppend(elts, e.value);
      assert (elts + [e.value])[..i] == elts;
      elts := elts + [e.value];
    }
    assert values[..|elts|] == values;
  }

  lemma NonNullSnoc(row: Row, i: nat)
    requires i < |row|
    ensures row[..i + 1] == row[..i] + [row[i]]
    ensures NonNull([row[i]]) == if row[i].Some? then 1 else 0
    ensures NonNull(row[..i + 1]) == NonNull(row[..i]) + NonNull([row[i]])
  {
    assert row[..i + 1][..i] == row[..i];
  }

  /**
   * Copies a log entry into the pool. `memory` says how many allocations succeed during the
   * call. When one fails, everything allocated before it is given back.
   */
  method CreateLocked(values: Row, pool: Pool, memory: nat) returns (node: Node?)
    requires pool.locked
    modifies pool`live
    ensures node != null <==> 2 + NonNull(values) <= memory
    ensures node == null ==> pool.live == old(pool.live)
    ensures node != null ==>
              && fresh(node)
              && RowOf(node.record.elts) == values
              && node.prev == node && node.next == node
              && multiset(pool.live) == multiset(old(pool.live)) + Footprint(node.record)
  {
    if memory == 0 {
      return null;
    }
    var eltsBlock := pool.Alloc();
    ghost var before := multiset(pool.live);
    var elts, left := CopyValues(values, pool, memory - 1);
    if |elts| == |values| && 0 < left {
      assert values[..|elts|] == values;
      var block := pool.Alloc();
      return new Node(Record(block, eltsBlock, elts));
    }
    FreeElts(elts, pool, before);
    assert eltsBlock in multiset(pool.live);
    pool.Free(eltsBlock);
    SameBlocks(pool.live, old(pool.live));
    return null;
  }

  lemma SameBlocks(a: set<nat>, b: set<nat>)
    requires multiset(a) == multiset(b)
    ensures a == b
  {
    forall x
      ensures x in a <==> x in b
    {
      assert x in multiset(a) <==> x in multiset(b);
    }
  }

  /** Gives back the blocks of the values. */
  method FreeElts(elts: seq<Elt>, pool: Pool, ghost rest: multiset<nat>)
    requires multiset(pool.live) == rest + DataBlocks(elts)
    modifies pool`live
    ensures multiset(pool.live) == rest
  {
    hide EltBlocks;
    var i := 0;
    assert elts[i..] == elts;
    while i < |elts|
      invariant 0 <= i <= |elts|
      invariant multiset(pool.live) == rest + DataBlocks(elts[i..])
    {
      assert elts[i..][1..] == elts[i + 1..];
      FreeElt(elts[i], pool, rest + DataBlocks(elts[i + 1..]));
      i := i + 1;
    }
  }

  method FreeElt(e: Elt, pool: Pool, ghost rest: multiset<nat>)
    requires multiset(pool.live) == rest + EltBlocks(e)
    modifies pool`live
    ensures multiset(pool.live) == rest
  {
    if e.Data? {
      assert e.block in multiset(pool.live);
      pool.Free(e.block);
    }
  }

  /** Gives back the blocks of a node. */
  method DestroyLocked(node: Node, pool: Pool, ghost rest: multiset<nat>)
    requires pool.locked
    requires multiset(pool.live) == rest + Footprint(node.record)
    modifies pool`live
    ensures multiset(pool.live) == rest
  {
    var r := node.record;
    FreeElts(r.elts, pool, rest + multiset{r.block} + multiset{r.eltsBlock});
    assert r.eltsBlock in multiset(pool.live);
    pool.Free(r.eltsBlock);
    assert r.block in multiset(pool.live);
    pool.Free(r.block);
  }
}
