/**
 * The list that carries drained values out of shared memory. It is a chain of parts with room
 * for `n` values each: a push fills the last part and starts a new one when that part is full.
 */
module Lists {

  type Parts<T> = seq<seq<T>>

  /** A list that was just initialized: one part, without values. */
  function Empty<T>(): Parts<T> {
    [[]]
  }

  function Push<T>(n: nat, parts: Parts<T>, v: T): (r: Parts<T>)
    requires parts != []
    ensures r != []
  {
    var last := |parts| - 1;
    if |parts[last]| == n then parts + [[v]] else parts[..last] + [parts[last] + [v]]
  }

  function PushAll<T>(n: nat, parts: Parts<T>, vs: seq<T>): (r: Parts<T>)
    requires parts != []
    ensures r != []
    decreases |vs|
  {
    if vs == [] then parts
    else Push(n, PushAll(n, parts, vs[..|vs| - 1]), vs[|vs| - 1])
  }

  function Flatten<T>(rows: seq<seq<T>>): seq<T> {
    if rows == [] then [] else Flatten(rows[..|rows| - 1]) + rows[|rows| - 1]
  }

  /** The parts that a drained queue of rows ends up in. */
  function Relist<T>(n: nat, rows: seq<seq<T>>): Parts<T> {
    PushAll(n, Empty(), Flatten(rows))
  }

  lemma {:induction false} PushAllAppend<T>(n: nat, parts: Parts<T>, a: seq<T>, b: seq<T>)
    requires parts != []
    ensures PushAll(n, parts, a + b) == PushAll(n, PushAll(n, parts, a), b)
    decreases |b|
  {
    if b == [] {
      assert a + b == a;
    } else {
      var init := b[..|b| - 1];
      PushAllAppend(n, parts, a, init);
      assert (a + b)[..|a + b| - 1] == a + init;
    }
  }

  /** Values that fit in the last part go there. */
  lemma {:induction false} PushAllFits<T>(n: nat, parts: Parts<T>, vs: seq<T>)
    requires parts != [] && |parts[|parts| - 1]| + |vs| <= n
    ensures PushAll(n, parts, vs) == parts[..|parts| - 1] + [parts[|parts| - 1] + vs]
    decreases |vs|
  {
    var last := |parts| - 1;
    if vs == [] {
      assert parts[last] + vs == parts[last];
    } else {
      PushAllFits(n, parts, vs[..|vs| - 1]);
      assert parts[last] + vs == parts[last] + vs[..|vs| - 1] + [vs[|vs| - 1]];
    }
  }

  /** A row after a full part becomes a part of its own. */
  lemma PushAllStartsPart<T>(n: nat, parts: Parts<T>, row: seq<T>)
    requires parts != [] && |parts[|parts| - 1]| == n
    requires 1 <= |row| <= n
    ensures PushAll(n, parts, row) == parts + [row]
  {
    var first, rest := [row[0]], row[1..];
    assert row == first + rest;
    PushAllAppend(n, parts, first, rest);
    assert PushAll(n, parts, first) == Push(n, PushAll(n, parts, []), row[0]) == parts + [first] by {
      assert first[..0] == [];
    }
    PushAllFits(n, parts + [first], rest);
    assert (parts + [first])[..|parts|] == parts;
  }

  /** All parts but the last are full, and only a lone part may be empty. */
  ghost predicate WellFilled<T>(n: nat, parts: Parts<T>) {
    && parts != []
    && (forall i | 0 <= i < |parts| - 1 :: |parts[i]| == n)
    && |parts[|parts| - 1]| <= n
    && (1 < |parts| ==> parts[|parts| - 1] != [])
  }

  lemma {:induction false} PushAllWellFilled<T>(n: nat, vs: seq<T>)
    requires 1 <= n
    ensures WellFilled(n, PushAll(n, Empty(), vs))
    decreases |vs|
  {
    if vs != [] {
      PushAllWellFilled(n, vs[..|vs| - 1]);
    }
  }

  lemma {:induction false} WellFilledIsRebuilt<T>(n: nat, rows: seq<seq<T>>)
    requires 1 <= n && WellFilled(n, rows)
    ensures Relist(n, rows) == rows
    decreases |rows|
  {
    var init, row := rows[..|rows| - 1], rows[|rows| - 1];
    assert rows == init + [row];
    PushAllAppend(n, Empty(), Flatten(init), row);
    if init == [] {
      PushAllFits(n, Empty(), row);
      assert [] + row == row;
    } else {
      WellFilledIsRebuilt(n, init);
      PushAllStartsPart(n, init, row);
    }
  }

  /**
   * Walking the parts gives the queued rows back exactly when every row but the last has `n`
   * values, the last one has at most `n`, and only a lone row is empty.
   */
  lemma RebuiltIffWellFilled<T>(n: nat, rows: seq<seq<T>>)
    requires 1 <= n
    ensures Relist(n, rows) == rows <==> WellFilled(n, rows)
  {
    if WellFilled(n, rows) {
      WellFilledIsRebuilt(n, rows);
    } else {
      PushAllWellFilled(n, Flatten(rows));
    }
  }

  ghost predicate AllOfLength<T>(n: nat, rows: seq<seq<T>>) {
    forall i | 0 <= i < |rows| :: |rows[i]| == n
  }

  /**
   * Rows of the format's arity come back one per part. An empty queue comes back as the one
   * empty part of an unused list.
   */
  lemma RelistArity<T>(n: nat, rows: seq<seq<T>>)
    requires 1 <= n && AllOfLength(n, rows)
    ensures Relist(n, rows) == if rows == [] then [[]] else rows
  {
    if rows != [] {
      WellFilledIsRebuilt(n, rows);
    }
  }

  // -------------------------------------------------------------- entry rows

  /** The rows that hold a log entry; writing an unused list adds a blank row, without values. */
  function Entries<T>(rows: seq<seq<T>>): seq<seq<T>> {
    if rows == [] then []
    else
      var row := rows[|rows| - 1];
      Entries(rows[..|rows| - 1]) + if row == [] then [] else [row]
  }

  lemma {:induction false} EntriesAppend<T>(a: seq<seq<T>>, b: seq<seq<T>>)
    ensures Entries(a + b) == Entries(a) + Entries(b)
    decreases |b|
  {
    if b == [] {
      assert a + b == a;
    } else {
      var init, row := b[..|b| - 1], b[|b| - 1];
      EntriesAppend(a, init);
      assert (a + b)[..|a + b| - 1] == a + init;
      var last: seq<seq<T>> := if row == [] then [] else [row];
      assert Entries(a) + (Entries(init) + last) == (Entries(a) + Entries(init)) + last;
    }
  }

  lemma {:induction false} EntriesOfArity<T>(n: nat, rows: seq<seq<T>>)
    requires 1 <= n && AllOfLength(n, rows)
    ensures Entries(rows) == rows
    decreases |rows|
  {
    if rows != [] {
      EntriesOfArity(n, rows[..|rows| - 1]);
    }
  }

  /** A drain carries exactly the queued entries, in queue order. */
  lemma RelistEntries<T>(n: nat, rows: seq<seq<T>>)
    requires 1 <= n && AllOfLength(n, rows)
    ensures Entries(Relist(n, rows)) == rows
  {
    RelistArity(n, rows);
    EntriesOfArity(n, rows);
  }

  /** Committing a drain adds the queued entries behind the ones already there. */
  lemma CommittedDrain<T>(n: nat, committed: seq<seq<T>>, drained: seq<seq<T>>)
    requires 1 <= n && AllOfLength(n, drained)
    ensures Entries(committed + Relist(n, drained)) == Entries(committed) + drained
    ensures forall p | p in Relist(n, drained) :: |p| <= n
  {
    RelistArity(n, drained);
    RelistEntries(n, drained);
    EntriesAppend(committed, Relist(n, drained));
  }

  /** The list itself. */
  class List<T> {
    const n: nat
    var parts: Parts<T>

    constructor (n: nat)
      ensures this.n == n && parts == Empty()
    {
      this.n, parts := n, [[]];
    }

    method Add(v: T)
      requires parts != []
      modifies this
      ensures parts == Push(n, old(parts), v)
    {
      if |parts[|parts| - 1]| == n {
        parts := parts + [[]];
      }
      var last := |parts| - 1;
      parts := parts[last := parts[last] + [v]];
      assert [] + [v] == [v];
    }
  }
}
