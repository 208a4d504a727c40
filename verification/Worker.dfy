/**
 * One worker's handlers, run without interference: what they do to the shared buffer and the
 * database, and that they hold the mutex for the buffer only, never for SQLite.
 */
module Worker {
  import opened Values
  import opened Buffer
  import opened Sqlite
  import opened Connection
  import Database
  import Lists

  /** How many allocations succeed in each of the steps of a handler. */
  datatype Memory = Memory(push: nat, list: nat, unshift: nat)

  // ------------------------------------------------------------- specification

  /** What stays the same while a worker runs. */
  datatype Setup = Setup(n: nat, max: nat, oracle: Oracle, script: bool)

  /** Where log entries are: in the shared buffer, and behind a connection. */
  datatype Log = Log(queue: seq<Row>, session: Session)

  datatype Outcome = Outcome(log: Log, ok: bool)

  /** List and insert: nothing happens without memory for the list; otherwise SQLite decides. */
  function DrainSpec(c: Setup, log: Log, memory: nat): Outcome {
    if memory < 1 + DrainCost(log.queue) then Outcome(log, false)
    else
      var reply := Database.InsertListSpec(c.oracle, log.session, c.script, Lists.Relist(c.n, log.queue));
      Outcome(Log([], reply.s), reply.rc == OK)
  }

  /** Logging an entry: a push, a drain if it filled or overflowed the queue, and maybe an unshift. */
  function HandleSpec(c: Setup, log: Log, entry: Row, memory: Memory): Outcome {
    var (rows, rc) := PushSpec(c.max, log.queue, entry, 2 + NonNull(entry) <= memory.push);
    if rc == Accepted then Outcome(log.(queue := rows), true)
    else
      var drained := DrainSpec(c, log.(queue := rows), memory.list);
      if !drained.ok || rc == ReachedMax then drained
      else if 2 + NonNull(entry) <= memory.unshift then
        Outcome(drained.log.(queue := [entry] + drained.log.queue), true)
      else Outcome(drained.log, false)
  }

  /** What the handler of an enabled worker does; `None` stands for an entry that could not be built. */
  function TryRequest(c: Setup, log: Log, entry: Option<Row>, memory: Memory): Outcome {
    if entry == None then Outcome(log, false) else HandleSpec(c, log, entry.value, memory)
  }

  /** A request of an enabled worker, which closes the connection if it fails. */
  function RequestSpec(c: Setup, log: Log, entry: Option<Row>, memory: Memory): Outcome {
    var handled := TryRequest(c, log, entry, memory);
    if handled.ok then handled
    else handled.(log := handled.log.(session := Close(c.oracle, handled.log.session).s))
  }

  /** The flush timer; it needs a memory pool of its own. */
  function FlushSpec(c: Setup, log: Log, memory: nat): Outcome {
    if log.queue == [] then Outcome(log, true)
    else if memory == 0 then Outcome(log, false)
    else DrainSpec(c, log, memory - 1)
  }

  /** The last drain of a leaving worker; `ok` tells whether it left the queue to nobody. */
  function LastDrainSpec(c: Setup, log: Log, memory: nat): Outcome {
    if log.session.conn.Null? then Outcome(log, false)
    else if log.queue == [] then Outcome(log, true)
    else DrainSpec(c, log, memory)
  }

  function ExitSpec(c: Setup, log: Log, enabled: bool, memory: nat): Outcome {
    if !enabled then Outcome(log, false)
    else
      var last := LastDrainSpec(c, log, memory);
      if last.log.session.conn.Null? then last
      else last.(log := last.log.(session := Close(c.oracle, last.log.session).s))
  }

  // -------------------------------------------- what the specification promises

  function Committed(log: Log): seq<Row> {
    Lists.Entries(log.session.committed)
  }

  /** Every entry in the database or the buffer, in the order a reader of both would see. */
  function Logged(log: Log): seq<Row> {
    Committed(log) + log.queue
  }

  /** The queue reaches the database as a whole and in order, or it stays, or all of it is lost. */
  lemma DrainIsAtomic(c: Setup, log: Log, memory: nat)
    requires 1 <= c.n && Lists.AllOfLength(c.n, log.queue)
    ensures var r := DrainSpec(c, log, memory);
            && (r.ok ==> Committed(r.log) == Committed(log) + log.queue && r.log.queue == [])
            && (!r.ok ==> Committed(r.log) == Committed(log))
            && (!r.ok ==> r.log.queue == if memory < 1 + DrainCost(log.queue) then log.queue else [])
  {
    hide Lists.Entries, Lists.Relist, Database.InsertListSpec;
    var parts := Lists.Relist(c.n, log.queue);
    Lists.CommittedDrain(c.n, log.session.committed, log.queue);
    Database.InsertListIsAtomic(c.oracle, log.session, c.script, parts);
    assert log.session.committed + [] == log.session.committed;
  }

  /**
   * While SQLite works, a drain succeeds if and only if there is memory for the list and a list
   * can be written over the connection.
   */
  lemma DrainWorksIffFit(c: Setup, log: Log, memory: nat)
    requires Database.WorksFrom(c.oracle, log.session.clock)
    ensures DrainSpec(c, log, memory).ok <==> 1 + DrainCost(log.queue) <= memory && Database.Fit(log.session.conn)
  {
    Database.WorkingSqliteWritesIffFit(c.oracle, log.session, c.script, Lists.Relist(c.n, log.queue));
  }

  /**
   * How logging an entry can end, given the outcome of the push. It succeeds in three ways: the
   * entry is queued; it filled the queue, which is now in the database as a whole; or it did not
   * fit, so that the queue is in the database and the entry alone is queued. A failure leaves the
   * queue as the push left it, or loses it, or loses only the entry that could not be put back.
   */
  ghost predicate Handled(push: (seq<Row>, Pushed), entry: Row, before: Log, after: Log, ok: bool) {
    match (push.1, ok)
    case (Accepted, _) => ok && after == before.(queue := push.0)
    case (ReachedMax, true) => after.queue == [] && Committed(after) == Committed(before) + push.0
    case (Overflow, true) => after.queue == [entry] && Committed(after) == Committed(before) + push.0
    case (_, false) =>
      || (Committed(after) == Committed(before) && (after.queue == push.0 || after.queue == []))
      || (push.1 == Overflow && Committed(after) == Committed(before) + push.0 && after.queue == [])
  }

  /** Where the entry and the queued ones are afterwards; on success the log has the entry at its end. */
  lemma HandlingKeepsTheLog(c: Setup, log: Log, entry: Row, memory: Memory)
    requires 1 <= c.n && Lists.AllOfLength(c.n, log.queue) && |entry| == c.n
    ensures var r := HandleSpec(c, log, entry, memory);
            var push := PushSpec(c.max, log.queue, entry, 2 + NonNull(entry) <= memory.push);
            && Handled(push, entry, log, r.log, r.ok)
            && (r.ok ==> Logged(r.log) == Logged(log) + [entry])
            && Lists.AllOfLength(c.n, r.log.queue)
  {
    hide DrainSpec, Lists.Entries;
    var (rows, rc) := PushSpec(c.max, log.queue, entry, 2 + NonNull(entry) <= memory.push);
    DrainIsAtomic(c, log.(queue := rows), memory.list);
    var before := Committed(log);
    assert before + (log.queue + [entry]) == (before + log.queue) + [entry];
    assert [entry] + [] == [entry] && before + log.queue + [entry] + [] == before + log.queue + [entry];
  }

  /** A request logs its entry or fails; when it fails, the connection is closed unless closing fails. */
  lemma RequestKeepsTheLog(c: Setup, log: Log, entry: Option<Row>, memory: Memory)
    requires 1 <= c.n && Lists.AllOfLength(c.n, log.queue) && (entry.Some? ==> |entry.value| == c.n)
    ensures var r := RequestSpec(c, log, entry, memory);
            && Lists.AllOfLength(c.n, r.log.queue)
            && (r.ok ==> entry.Some? && Logged(r.log) == Logged(log) + [entry.value])
            && (entry == None ==> !r.ok && Logged(r.log) == Logged(log))
            && (!r.ok ==> var last := TryRequest(c, log, entry, memory).log.session;
                          r.log.session.conn.Null? <==> Close(c.oracle, last).rc == OK)
  {
    hide Lists.Entries, HandleSpec;
    if entry.Some? {
      HandlingKeepsTheLog(c, log, entry.value, memory);
    }
  }

  /**
   * The exit is clean exactly if the worker is enabled and connected and the queue is empty or its
   * drain succeeds. A clean exit leaves all logged entries in the database, and no exit reorders
   * or invents entries.
   */
  lemma CleanExitWritesAll(c: Setup, log: Log, enabled: bool, memory: nat)
    requires 1 <= c.n && Lists.AllOfLength(c.n, log.queue)
    ensures var r := ExitSpec(c, log, enabled, memory);
            && (r.ok <==> enabled && !log.session.conn.Null? && (log.queue == [] || DrainSpec(c, log, memory).ok))
            && (r.ok ==> r.log.queue == [] && Committed(r.log) == Logged(log))
            && (!r.ok ==> Committed(r.log) == Committed(log) && (r.log.queue == log.queue || r.log.queue == []))
            && (!enabled ==> r.log == log)
  {
    hide DrainSpec, Lists.Entries;
    DrainIsAtomic(c, log, memory);
    assert Committed(log) + [] == Committed(log);
  }

  /** The transaction that writes a drained queue. */
  function Written(c: Setup, log: Log): Reply {
    Database.InsertListSpec(c.oracle, log.session, c.script, Lists.Relist(c.n, log.queue))
  }

  /**
   * What logging an entry comes to. A push that fits and stays below the maximum is all there is to
   * it. Otherwise the queue, with the entry if it fits, is drained: it stays for want of memory, is
   * lost with a failed transaction, or is written; an entry that did not fit is put back then, if
   * there is memory. So a failure is one of listing, of the transaction or of the unshift.
   */
  lemma HandlingComesTo(c: Setup, log: Log, entry: Row, memory: Memory)
    ensures var r := HandleSpec(c, log, entry, memory);
            var fits := 2 + NonNull(entry) <= memory.push;
            var rows := if fits then log.queue + [entry] else log.queue;
            var lists := 1 + DrainCost(rows) <= memory.list;
            var reply := Written(c, Log(rows, log.session));
            if fits && (c.max == 0 || |log.queue| + 1 < c.max) then
              r.ok && r.log.queue == rows && r.log.session == log.session
            else
              && (r.ok <==> lists && reply.rc == 0 && (fits || 2 + NonNull(entry) <= memory.unshift))
              && r.log.session == (if lists then reply.s else log.session)
              && r.log.queue == (if !lists then rows else if r.ok && !fits then [entry] else [])
  {
    hide Lists.Relist, Database.InsertListSpec, DrainCost, NonNull;
  }

  lemma WorkingTransactionsSucceed(c: Setup, log: Log)
    requires 1 <= c.n && Lists.AllOfLength(c.n, log.queue)
    requires Database.WorksFrom(c.oracle, log.session.clock) && Database.Fit(log.session.conn)
    ensures Written(c, log).rc == 0 && Lists.Entries(Written(c, log).s.committed) == Committed(log) + log.queue
  {
    hide Lists.Relist, Lists.Entries, Database.InsertListSpec, Lists.AllOfLength, Database.Fit;
    Database.WorkingSqliteWritesIffFit(c.oracle, log.session, c.script, Lists.Relist(c.n, log.queue));
    Lists.CommittedDrain(c.n, log.session.committed, log.queue);
  }

  /**
   * While SQLite works, with memory for all steps and a fit connection, logging an entry succeeds.
   * Below the maximum it is queued and nothing is written. At the maximum the queue is written with
   * the entry. An entry for which there is no room is queued alone, and the others are written.
   */
  lemma WorkingHandlingSucceeds(c: Setup, log: Log, entry: Row, memory: Memory)
    requires 1 <= c.n && Lists.AllOfLength(c.n, log.queue) && |entry| == c.n
    requires Database.WorksFrom(c.oracle, log.session.clock) && Database.Fit(log.session.conn)
    requires 1 + DrainCost(log.queue + [entry]) <= memory.list && 2 + NonNull(entry) <= memory.unshift
    ensures var r, fits := HandleSpec(c, log, entry, memory), 2 + NonNull(entry) <= memory.push;
            && r.ok
            && (fits && (c.max == 0 || |log.queue| + 1 < c.max) ==>
                  r.log.queue == log.queue + [entry] && r.log.session == log.session)
            && (fits && c.max != 0 && c.max <= |log.queue| + 1 ==>
                  r.log.queue == [] && Committed(r.log) == Committed(log) + log.queue + [entry])
            && (!fits ==> r.log.queue == [entry] && Committed(r.log) == Committed(log) + log.queue)
  {
    hide Lists.Entries, Written, HandleSpec, Lists.AllOfLength, Database.Fit, DrainCost, NonNull, Database.WorksFrom;
    OneMoreRow(c.n, log.queue, entry);
    HandlingComesTo(c, log, entry, memory);
    WorkingTransactionsSucceed(c, log);
    WorkingTransactionsSucceed(c, Log(log.queue + [entry], log.session));
    assert Committed(log) + (log.queue + [entry]) == Committed(log) + log.queue + [entry];
  }

  /** The same holds for a request, which then leaves the connection alone. */
  lemma WorkingRequestsSucceed(c: Setup, log: Log, entry: Row, memory: Memory)
    requires 1 <= c.n && Lists.AllOfLength(c.n, log.queue) && |entry| == c.n
    requires Database.WorksFrom(c.oracle, log.session.clock) && Database.Fit(log.session.conn)
    requires 1 + DrainCost(log.queue + [entry]) <= memory.list && 2 + NonNull(entry) <= memory.unshift
    ensures var r, fits := RequestSpec(c, log, Some(entry), memory), 2 + NonNull(entry) <= memory.push;
            && r.ok
            && (fits && (c.max == 0 || |log.queue| + 1 < c.max) ==>
                  r.log.queue == log.queue + [entry] && r.log.session == log.session)
            && (fits && c.max != 0 && c.max <= |log.queue| + 1 ==>
                  r.log.queue == [] && Committed(r.log) == Committed(log) + log.queue + [entry])
            && (!fits ==> r.log.queue == [entry] && Committed(r.log) == Committed(log) + log.queue)
  {
    hide HandleSpec, Committed, Database.Fit, DrainCost, NonNull, Database.WorksFrom, Lists.AllOfLength;
    WorkingHandlingSucceeds(c, log, entry, memory);
  }

  lemma OneMoreRow(n: nat, queue: seq<Row>, entry: Row)
    requires Lists.AllOfLength(n, queue) && |entry| == n
    ensures Lists.AllOfLength(n, queue + [entry]) && DrainCost(queue) <= DrainCost(queue + [entry])
  {
    assert (queue + [entry])[..|queue|] == queue;
  }

  /** A request succeeds if and only if its entry could be built and handling it succeeds. */
  lemma RequestComesTo(c: Setup, log: Log, entry: Option<Row>, memory: Memory)
    ensures var r := RequestSpec(c, log, entry, memory);
            && (r.ok <==> entry.Some? && HandleSpec(c, log, entry.value, memory).ok)
            && (r.ok ==> r.log == HandleSpec(c, log, entry.value, memory).log)
            && r.log.queue == (if entry.Some? then HandleSpec(c, log, entry.value, memory).log.queue else log.queue)
            && (entry == None ==> r.log.session.committed == log.session.committed)
            && (entry.Some? ==>
                  r.log.session.committed == HandleSpec(c, log, entry.value, memory).log.session.committed)
  {
    hide HandleSpec;
  }

  /**
   * What a flush comes to, for every SQLite: it succeeds if and only if the queue was empty or its
   * entries were committed, and it keeps the queue if and only if that was empty or memory ran out.
   */
  lemma FlushComesTo(c: Setup, log: Log, memory: nat)
    requires 1 <= c.n && Lists.AllOfLength(c.n, log.queue)
    ensures var r := FlushSpec(c, log, memory);
            && (log.queue == [] ==> r.ok && r.log == log)
            && (r.ok <==> r.log.queue == [] && Committed(r.log) == Committed(log) + log.queue)
            && (!r.ok ==> Committed(r.log) == Committed(log))
            && (r.log.queue == log.queue <==> log.queue == [] || memory < 2 + DrainCost(log.queue))
            && (r.log.queue == log.queue || r.log.queue == [])
  {
    hide Lists.Entries, DrainSpec;
    assert Committed(log) + [] == Committed(log);
    assert |Committed(log) + log.queue| == |Committed(log)| + |log.queue|;
    if memory > 0 {
      DrainIsAtomic(c, log, memory - 1);
      if memory < 2 + DrainCost(log.queue) {
        assert !DrainSpec(c, log, memory - 1).ok by {
          NoMemoryNoDrain(c, log, memory - 1);
        }
      }
    }
  }

  lemma NoMemoryNoDrain(c: Setup, log: Log, memory: nat)
    requires memory < 1 + DrainCost(log.queue)
    ensures !DrainSpec(c, log, memory).ok
  {
  }

  /** While SQLite works, a flush with memory and a fit connection writes the queue. */
  lemma WorkingFlushesSucceed(c: Setup, log: Log, memory: nat)
    requires 1 <= c.n && Lists.AllOfLength(c.n, log.queue) && 2 + DrainCost(log.queue) <= memory
    requires Database.WorksFrom(c.oracle, log.session.clock) && Database.Fit(log.session.conn)
    ensures var r := FlushSpec(c, log, memory);
            r.ok && r.log.queue == [] && Committed(r.log) == Committed(log) + log.queue
  {
    hide Lists.Entries, DrainSpec, Database.Fit, DrainCost;
    assert log.queue == [] ==> Committed(log) + log.queue == Committed(log);
    DrainWorksIffFit(c, log, memory - 1);
    DrainIsAtomic(c, log, memory - 1);
  }

  /** While SQLite works, an enabled worker with memory and a fit connection leaves nothing behind. */
  lemma WorkingExitsAreClean(c: Setup, log: Log, memory: nat)
    requires 1 <= c.n && Lists.AllOfLength(c.n, log.queue) && 1 + DrainCost(log.queue) <= memory
    requires Database.WorksFrom(c.oracle, log.session.clock) && Database.Fit(log.session.conn)
    ensures var r := ExitSpec(c, log, true, memory);
            r.ok && r.log.queue == [] && Committed(r.log) == Committed(log) + log.queue && r.log.session.conn == Null
  {
    hide Lists.Entries, DrainSpec, DrainCost;
    DrainWorksIffFit(c, log, memory);
    DrainIsAtomic(c, log, memory);
    DrainTicks(c, log, memory);
    assert log.queue == [] ==> Committed(log) + log.queue == Committed(log);
  }

  lemma DrainTicks(c: Setup, log: Log, memory: nat)
    requires Database.WorksFrom(c.oracle, log.session.clock)
    ensures log.session.clock <= DrainSpec(c, log, memory).log.session.clock
  {
    Database.ListsTick(c.oracle, log.session, c.script, Lists.Relist(c.n, log.queue));
  }

  // -------------------------------------------------------------- the handlers

  class Worker {
    const buffer: Buffer
    const db: Db
    const n: nat
    var enabled: bool

    ghost predicate Valid()
      reads this, buffer, buffer.pool, buffer.head, buffer.nodes
    {
      && buffer.Valid() && !buffer.pool.locked
      && 1 <= n == |db.binders|
      && Lists.AllOfLength(n, buffer.Contents())
    }

    ghost function TheSetup(): Setup {
      Setup(n, buffer.max, db.oracle, db.script)
    }

    ghost function TheLog(): Log
      reads db, buffer
    {
      Log(buffer.Contents(), db.session)
    }

    constructor (buffer: Buffer, db: Db, n: nat)
      requires buffer.Valid() && !buffer.pool.locked
      requires 1 <= n == |db.binders| && Lists.AllOfLength(n, buffer.Contents())
      ensures this.buffer == buffer && this.db == db && this.n == n && enabled && Valid()
    {
      this.buffer, this.db, this.n, this.enabled := buffer, db, n, true;
    }

    /** SQLite is called only while the mutex is free. */
    method InsertList(parts: seq<Row>) returns (ok: bool)
      requires !buffer.pool.locked
      requires parts != [] && forall p | p in parts :: |p| <= |db.binders|
      modifies db
      ensures var reply := Database.InsertListSpec(db.oracle, old(db.session), db.script, parts);
              db.session == reply.s && (ok <==> reply.rc == OK)
    {
      var rc := db.InsertList(parts);
      return rc == OK;
    }

    /** The steps every handler shares: list, unlock, insert. */
    method ListAndInsert(memory: nat) returns (ok: bool)
      requires buffer.Valid() && buffer.pool.locked
      requires 1 <= n == |db.binders| && Lists.AllOfLength(n, buffer.Contents())
      modifies buffer`len, buffer`nodes, buffer.pool, buffer.head, db
      ensures Valid()
      ensures buffer.nodes == [] || buffer.nodes == old(buffer.nodes)
      ensures Outcome(TheLog(), ok) == DrainSpec(TheSetup(), old(TheLog()), memory)
    {
      hide Linked, RowsOf, BlocksOf, Lists.Relist, Database.InsertListSpec;
      Lists.RelistArity(n, buffer.Contents());
      var parts := buffer.ListLocked(n, memory);
      buffer.pool.Unlock();
      if parts == None {
        return false;
      }
      ok := InsertList(parts.value);
    }

    /** Logs one entry through the buffer. */
    method HandleN(entry: Row, memory: Memory) returns (ok: bool)
      requires Valid() && |entry| == n
      modifies buffer`len, buffer`nodes, buffer.pool, buffer.head, buffer.nodes, db
      ensures Valid()
      ensures Outcome(TheLog(), ok) == HandleSpec(TheSetup(), old(TheLog()), entry, memory)
    {
      hide Linked, RowsOf, BlocksOf, Lists.Relist, Database.InsertListSpec;
      buffer.pool.Lock();
      var rcPush := buffer.PushLocked(entry, memory.push);
      if rcPush == Accepted {
        buffer.pool.Unlock();
        return true;
      }
      var inserted := ListAndInsert(memory.list);
      if !inserted {
        return false;
      }
      if rcPush == Overflow {
        ok := buffer.Unshift(entry, memory.unshift);
        return;
      }
      return true;
    }

    /** The request handler: any failure closes the connection and disables the worker. */
    method Handle(entry: Option<Row>, memory: Memory) returns (ok: bool)
      requires Valid() && (entry.Some? ==> |entry.value| == n)
      modifies this`enabled, buffer`len, buffer`nodes, buffer.pool, buffer.head, buffer.nodes, db
      ensures Valid()
      ensures enabled == (old(enabled) && ok)
      ensures if old(enabled) then Outcome(TheLog(), ok) == RequestSpec(TheSetup(), old(TheLog()), entry, memory)
              else ok && TheLog() == old(TheLog())
    {
      hide Linked, RowsOf, BlocksOf, HandleSpec;
      if !enabled {
        return true;
      }
      ok := false;
      if entry.Some? {
        ok := HandleN(entry.value, memory);
      }
      if !ok {
        var rcClose := db.Shut();
        enabled := false;
      }
    }

    /**
     * The flush timer. It looks at the length and takes the mutex again; what it would see in
     * between, if others interfered, is a matter of the transition system.
     */
    method Flush(memory: nat) returns (ok: bool)
      requires Valid()
      modifies buffer`len, buffer`nodes, buffer.pool, buffer.head, db
      ensures Valid()
      ensures Outcome(TheLog(), ok) == FlushSpec(TheSetup(), old(TheLog()), memory)
    {
      hide Linked, BlocksOf, DrainSpec;
      buffer.pool.Lock();
      var len := buffer.len;
      buffer.pool.Unlock();
      if len == 0 {
        return true;
      }
      buffer.pool.Lock();
      if memory == 0 {
        buffer.pool.Unlock();
        return false;
      }
      ok := ListAndInsert(memory - 1);
    }

    /** Leaves the process: drains once more if the worker still has a connection, then closes. */
    method Exit(memory: nat) returns (clean: bool)
      requires Valid()
      modifies buffer`len, buffer`nodes, buffer.pool, buffer.head, db
      ensures Valid()
      ensures Outcome(TheLog(), clean) == ExitSpec(TheSetup(), old(TheLog()), enabled, memory)
    {
      hide Linked, BlocksOf, DrainSpec;
      if !enabled {
        return false;
      }
      clean := false;
      if !db.session.conn.Null? {
        buffer.pool.Lock();
        if buffer.len == 0 {
          buffer.pool.Unlock();
          clean := true;
        } else {
          clean := ListAndInsert(memory);
        }
      }
      if !db.session.conn.Null? {
        var rcClose := db.Shut();
      }
    }
  }
}
