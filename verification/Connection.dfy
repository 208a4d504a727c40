/** The database code as it runs: it updates the connection and reports result codes. */
module Connection {
  import opened Values
  import opened Sqlite
  import opened Database

  /** How a column's value is handed to SQLite. */
  datatype Binder = Text | Blob

  datatype Parameter = Parameter(binder: Binder, value: Value)

  /** The parameters bound for an entry; element `i` is the parameter at position `i + 1`. */
  function Bindings(binders: seq<Binder>, elts: Row): seq<Parameter>
    requires |elts| <= |binders|
  {
    seq(|elts|, i requires 0 <= i < |elts| => Parameter(binders[i], elts[i]))
  }

  class Db {
    const oracle: Oracle
    const script: bool
    const binders: seq<Binder>
    var session: Session

    constructor (oracle: Oracle, script: bool, binders: seq<Binder>, committed: seq<Row>)
      ensures this.oracle == oracle && this.script == script && this.binders == binders
      ensures session == Session(Null, committed, 0, None)
    {
      this.oracle, this.script, this.binders := oracle, script, binders;
      session := Session(Null, committed, 0, None);
    }

    method Shut() returns (rc: int)
      modifies this
      ensures Reply(session, rc) == Close(oracle, old(session))
    {
      var reply := Close(oracle, session);
      session := reply.s;
      rc := reply.rc;
    }

    method Init() returns (rc: int)
      modifies this
      ensures Reply(session, rc) == InitSpec(oracle, old(session), script)
    {
      if !session.conn.Null? {
        rc := Shut();
        if rc != OK {
          return;
        }
      }
      var reply := OpenV2(oracle, session);
      session := reply.s;
      if reply.rc != OK {
        rc := Shut();
        if rc == OK {
          rc := reply.rc;
        }
        return;
      }
      reply := Harmless(oracle, session);
      session := reply.s;
      if reply.rc != OK {
        return reply.rc;
      }
      reply := Harmless(oracle, session);
      session := reply.s;
      if reply.rc != OK || !script {
        return reply.rc;
      }
      reply := Harmless(oracle, session);
      session := reply.s;
      rc := reply.rc;
    }

    /** Writes one entry; `params` is what was bound when the statement was executed. */
    method TryInsert(elts: Row) returns (rc: int, params: seq<Parameter>)
      requires |elts| <= |binders|
      modifies this
      ensures Reply(session, rc) == TryInsertSpec(oracle, old(session), elts)
      ensures rc == OK ==> params == Bindings(binders, elts)
    {
      params := [];
      var reply := Harmless(oracle, session);
      session := reply.s;
      if reply.rc != OK {
        return reply.rc, params;
      }
      ghost var prepared := session;
      var i := 0;
      while i < |elts|
        invariant 0 <= i <= |elts|
        invariant Reply(session, OK) == BindSpec(oracle, prepared, i)
        invariant params == Bindings(binders, elts[..i])
      {
        reply := Harmless(oracle, session);
        session := reply.s;
        assert reply == BindSpec(oracle, prepared, i + 1);
        if reply.rc != OK {
          BindFailureLasts(oracle, prepared, i + 1, |elts|);
          return reply.rc, params;
        }
        params := params + [Parameter(binders[i], elts[i])];
        i := i + 1;
      }
      assert elts[..i] == elts;
      reply := Step(oracle, session, elts);
      session := reply.s;
      rc := if reply.rc == DONE then OK else reply.rc;
    }

    /** Writes a list in one transaction. */
    method TryInsertList(parts: seq<Row>) returns (rc: int)
      requires parts != [] && forall p | p in parts :: |p| <= |binders|
      modifies this
      ensures Reply(session, rc) == TryInsertListSpec(oracle, old(session), parts)
    {
      var reply := Begin(oracle, session);
      session := reply.s;
      if reply.rc != OK {
        return reply.rc;
      }
      ghost var begun := session;
      var i, inserted := 0, OK;
      while i < |parts| && inserted == OK
        invariant 0 <= i <= |parts|
        invariant Reply(session, inserted) == InsertPartsSpec(oracle, begun, parts[..i])
      {
        ghost var params;
        assert parts[..i + 1][..i] == parts[..i];
        inserted, params := TryInsert(parts[i]);
        i := i + 1;
      }
      if inserted == OK {
        assert parts[..i] == parts;
        reply := Commit(oracle, session);
        session := reply.s;
        rc := reply.rc;
      } else {
        InsertFailureLasts(oracle, begun, parts, i);
        reply := Rollback(oracle, session);
        session := reply.s;
        rc := inserted;
      }
    }

    /**
     * Writes a drained list: all of it, once and in order, or nothing. It reconnects and tries
     * once more when the extended error code is that of a moved file, or OK.
     */
    method InsertList(parts: seq<Row>) returns (rc: int)
      requires parts != [] && forall p | p in parts :: |p| <= |binders|
      modifies this
      ensures Reply(session, rc) == InsertListSpec(oracle, old(session), script, parts)
      ensures session.committed == old(session.committed) + if rc == OK then parts else []
    {
      InsertListIsAtomic(oracle, session, script, parts);
      rc := TryInsertList(parts);
      if rc != OK {
        var extended := ExtendedErrcode(oracle, session);
        session := extended.s;
        if extended.rc == READONLY_DBMOVED || extended.rc == OK {
          var init := Init();
          if init != OK {
            return init;
          }
          rc := TryInsertList(parts);
        }
      }
    }

    /** Writes one entry outside of a transaction. */
    method Insert(elts: Row) returns (rc: int)
      requires |elts| <= |binders|
      modifies this
      ensures Reply(session, rc) == InsertSpec(oracle, old(session), script, elts)
    {
      ghost var params;
      rc, params := TryInsert(elts);
      if rc != OK {
        var extended := ExtendedErrcode(oracle, session);
        session := extended.s;
        if extended.rc == READONLY_DBMOVED {
          var init := Init();
          if init != OK {
            return init;
          }
          rc, params := TryInsert(elts);
        }
      }
    }
  }

  lemma {:induction false} BindFailureLasts(o: Oracle, s: Session, i: nat, k: nat)
    requires i <= k && BindSpec(o, s, i).rc != OK
    ensures BindSpec(o, s, k) == BindSpec(o, s, i)
  {
    if i < k {
      BindFailureLasts(o, s, i, k - 1);
    }
  }

  lemma {:induction false} InsertFailureLasts(o: Oracle, s: Session, parts: seq<Row>, i: nat)
    requires i <= |parts| && InsertPartsSpec(o, s, parts[..i]).rc != OK
    ensures InsertPartsSpec(o, s, parts) == InsertPartsSpec(o, s, parts[..i])
    decreases |parts| - i
  {
    if i < |parts| {
      assert parts[..i + 1][..i] == parts[..i];
      InsertFailureLasts(o, s, parts, i + 1);
    } else {
      assert parts[..i] == parts;
    }
  }

  // ------------------------------------------------------------------ checkpoint

  function TenTo(k: nat): nat {
    if k == 0 then 1 else 10 * TenTo(k - 1)
  }

  /** A random draw without its last digits, as few of them as leave at most 100. */
  method Jitter(draw: nat) returns (r: nat)
    ensures r <= 100
    ensures draw <= 100 ==> r == draw
    ensures exists k: nat ::
              r * TenTo(k) <= draw < (r + 1) * TenTo(k) && (k > 0 ==> 101 * TenTo(k - 1) <= draw)
  {
    r := draw;
    ghost var k := 0;
    while r > 100
      invariant draw <= 100 ==> r == draw
      invariant r * TenTo(k) <= draw < (r + 1) * TenTo(k)
      invariant k > 0 ==> 101 * TenTo(k - 1) <= draw
    {
      DropDigit(draw, r, TenTo(k));
      r := r / 10;
      k := k + 1;
    }
  }

  lemma DropDigit(draw: nat, r: nat, unit: nat)
    requires r * unit <= draw < (r + 1) * unit && 100 < r
    ensures 101 * unit <= draw
    ensures r / 10 * (10 * unit) <= draw < (r / 10 + 1) * (10 * unit)
  {
    var q := r / 10;
    Regroup(q, unit);
    Regroup(q + 1, unit);
    Scale(101, r, unit);
    Scale(10 * q, r, unit);
    Scale(r + 1, 10 * (q + 1), unit);
  }

  lemma Scale(x: nat, y: nat, unit: nat)
    requires x <= y
    ensures x * unit <= y * unit
  {
  }

  lemma Regroup(q: nat, unit: nat)
    ensures q * (10 * unit) == 10 * q * unit
  {
  }

  /**
   * The checkpoint of a database in WAL mode. `busy(k)` is the answer to checkpoint call `k` and
   * `draw(k)` the random number before retry `k`. The loop ends for every pattern of answers,
   * within the timeout plus one sleep; it gives up only after sleeping for the whole timeout,
   * and then reports success.
   */
  method Checkpoint(timeout: int, busy: nat -> int, draw: nat -> nat)
    returns (rc: int, slept: nat, calls: nat)
    ensures slept <= (if timeout <= 1 then 1 else timeout) + 149
    ensures 1 <= calls <= 1 + if timeout <= 50 then 1 else (timeout + 49) / 50
    ensures 50 * (calls - 1) <= slept <= 150 * (calls - 1)
    ensures forall k | 0 <= k < calls - 1 :: busy(k) == BUSY
    ensures busy(calls - 1) == BUSY ==> rc == OK && timeout <= slept && 2 <= calls
    ensures busy(calls - 1) != BUSY ==> rc == busy(calls - 1)
  {
    rc := busy(0);
    slept, calls := 0, 1;
    while rc == BUSY
      invariant rc == busy(calls - 1) && 1 <= calls
      invariant calls == 1 || slept < timeout
      invariant 50 * (calls - 1) <= slept <= 150 * (calls - 1)
      invariant forall k | 0 <= k < calls - 1 :: busy(k) == BUSY
      decreases timeout - slept
    {
      var r := Jitter(draw(calls - 1));
      var duration := 50 + r;
      slept := slept + duration;
      rc := busy(calls);
      calls := calls + 1;
      if slept >= timeout {
        break;
      }
    }
    if rc == BUSY {
      rc := OK;
    }
  }
}
