/**
 * The shared memory pool: a mutex and the set of blocks in use. Freeing a block only marks it
 * free; its contents stay readable while the pool is locked.
 */
module Slab {

  class Pool {
    var live: set<nat>
    var locked: bool

    constructor ()
      ensures live == {} && !locked
    {
      live, locked := {}, false;
    }

    method Lock()
      requires !locked
      modifies this`locked
      ensures locked
    {
      locked := true;
    }

    method Unlock()
      requires locked
      modifies this`locked
      ensures !locked
    {
      locked := false;
    }

    /** Hands out any block that is not in use, possibly one that was freed before. */
    method Alloc() returns (block: nat)
      modifies this`live
      ensures block !in old(live) && live == old(live) + {block}
      ensures multiset(live) == multiset(old(live)) + multiset{block}
    {
      SomeBlockIsFree(live, |live|);
      block :| block !in live;
      live := live + {block};
    }

    method Free(block: nat)
      requires block in live
      modifies this`live
      ensures live == old(live) - {block}
      ensures multiset(live) == multiset(old(live)) - multiset{block}
    {
      live := live - {block};
    }
  }

  lemma {:induction false} SomeBlockIsFree(blocks: set<nat>, bound: nat)
    requires |blocks| <= bound
    ensures exists b: nat :: b <= bound && b !in blocks
  {
    if bound in blocks {
      SomeBlockIsFree(blocks - {bound}, bound - 1);
      var b: nat :| b <= bound - 1 && b !in blocks - {bound};
      assert b !in blocks;
    }
  }
}
