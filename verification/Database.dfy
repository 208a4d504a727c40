/** The logging database of one worker: connecting, writing one entry, writing a drained list. */
module Database {
  import opened Values
  import opened Sqlite

  // ------------------------------------------------------------- specification

  /** Connects, closing a previous connection first. */
  function InitSpec(o: Oracle, s: Session, script: bool): Reply {
    var closed := if s.conn.Null? then Reply(s, OK) else Close(o, s);
    if closed.rc != OK then closed
    else
      var handle := OpenV2(o, closed.s);
      if handle.rc != OK then
        var reclosed := Close(o, handle.s);
        if reclosed.rc != OK then reclosed else Reply(reclosed.s, handle.rc)
      else
        var timeout := Harmless(o, handle.s);
        if timeout.rc != OK then timeout
        else
          var table := Harmless(o, timeout.s);
          if table.rc != OK || !script then table else Harmless(o, table.s)
  }

  /** Binds `k` parameters, up to the first failure. */
  function BindSpec(o: Oracle, s: Session, k: nat): Reply {
    if k == 0 then Reply(s, OK)
    else
      var before := BindSpec(o, s, k - 1);
      if before.rc != OK then before else Harmless(o, before.s)
  }

  /** Prepare, bind, step, finalize. */
  function TryInsertSpec(o: Oracle, s: Session, row: Row): Reply {
    var prepared := Harmless(o, s);
    if prepared.rc != OK then prepared
    else
      var bound := BindSpec(o, prepared.s, |row|);
      if bound.rc != OK then bound
      else
        var stepped := Step(o, bound.s, row);
        if stepped.rc == DONE then Reply(stepped.s, OK) else stepped
  }

  function InsertPartsSpec(o: Oracle, s: Session, parts: seq<Row>): Reply {
    if parts == [] then Reply(s, OK)
    else
      var before := InsertPartsSpec(o, s, parts[..|parts| - 1]);
      if before.rc != OK then before else TryInsertSpec(o, before.s, parts[|parts| - 1])
  }

  /** Ends the transaction; a failed insert outranks a failed rollback. */
  function EndSpec(o: Oracle, inserted: Reply): Reply {
    if inserted.rc == OK then Commit(o, inserted.s)
    else Reply(Rollback(o, inserted.s).s, inserted.rc)
  }

  function TryInsertListSpec(o: Oracle, s: Session, parts: seq<Row>): Reply {
    var begun := Begin(o, s);
    if begun.rc != OK then begun else EndSpec(o, InsertPartsSpec(o, begun.s, parts))
  }

  predicate Retryable(code: int) {
    code == READONLY_DBMOVED || code == OK
  }

  /** Writes a list in one transaction, reconnecting and trying once more after some failures. */
  function InsertListSpec(o: Oracle, s: Session, script: bool, parts: seq<Row>): Reply {
    var first := TryInsertListSpec(o, s, parts);
    if first.rc == OK then first
    else
      var extended := ExtendedErrcode(o, first.s);
      if !Retryable(extended.rc) then Reply(extended.s, first.rc)
      else
        var init := InitSpec(o, extended.s, script);
        if init.rc != OK then init else TryInsertListSpec(o, init.s, parts)
  }

  /** Writes one entry without a transaction, reconnecting if the file was moved. */
  function InsertSpec(o: Oracle, s: Session, script: bool, row: Row): Reply {
    var first := TryInsertSpec(o, s, row);
    if first.rc == OK then first
    else
      var extended := ExtendedErrcode(o, first.s);
      if extended.rc != READONLY_DBMOVED then Reply(extended.s, first.rc)
      else
        var init := InitSpec(o, extended.s, script);
        if init.rc != OK then init else TryInsertSpec(o, init.s, row)
  }

  // ---------------------------------------------------------------- all or nothing

  /** Connecting commits nothing, and a new connection starts without a transaction. */
  lemma InitCommitsNothing(o: Oracle, s: Session, script: bool)
    ensures var r := InitSpec(o, s, script);
            r.s.committed == s.committed && (r.rc == OK ==> r.s.conn == Open(None))
  {
  }

  lemma {:induction false} BindKeepsRows(o: Oracle, s: Session, k: nat)
    requires s.conn.Open?
    ensures var r := BindSpec(o, s, k);
            && r.s.committed == s.committed
            && (r.rc == OK ==> r.s.conn == s.conn)
            && (r.s.conn == s.conn || r.s.conn == Open(None))
  {
    if k != 0 {
      BindKeepsRows(o, s, k - 1);
    }
  }

  /** Inside a transaction an entry joins the transaction or nothing is gained. */
  lemma TryInsertInTransaction(o: Oracle, s: Session, row: Row)
    requires s.conn.Open? && s.conn.txn.Some?
    ensures var r := TryInsertSpec(o, s, row);
            && r.s.committed == s.committed
            && (r.rc == OK ==> r.s.conn == Open(Some(s.conn.txn.value + [row])))
            && (r.rc != OK ==> r.s.conn.Open?)
  {
    var prepared := Harmless(o, s);
    if prepared.rc == OK {
      BindKeepsRows(o, prepared.s, |row|);
    }
  }

  lemma {:induction false} InsertPartsInTransaction(o: Oracle, s: Session, parts: seq<Row>)
    requires s.conn == Open(Some([]))
    ensures var r := InsertPartsSpec(o, s, parts);
            && r.s.committed == s.committed
            && (r.rc == OK ==> r.s.conn == Open(Some(parts)))
            && (r.rc != OK ==> r.s.conn.Open?)
  {
    if parts != [] {
      var init := parts[..|parts| - 1];
      InsertPartsInTransaction(o, s, init);
      assert parts == init + [parts[|parts| - 1]];
      var before := InsertPartsSpec(o, s, init);
      if before.rc == OK {
        TryInsertInTransaction(o, before.s, parts[|parts| - 1]);
      }
    }
  }

  /**
   * One attempt commits the whole list, once and in order, or none of it. That holds from every
   * session, also one whose connection still has the transaction of an earlier attempt open.
   */
  lemma TryInsertListIsAtomic(o: Oracle, s: Session, parts: seq<Row>)
    ensures var r := TryInsertListSpec(o, s, parts);
            && (r.rc == OK ==> r.s.committed == s.committed + parts && r.s.conn == Open(None))
            && (r.rc != OK ==> r.s.committed == s.committed)
  {
    var begun := Begin(o, s);
    if begun.rc == OK {
      InsertPartsInTransaction(o, begun.s, parts);
    }
  }

  /** What a call adds to the database. */
  function Added(rc: int, parts: seq<Row>): seq<Row> {
    if rc == OK then parts else []
  }

  /** All or nothing, at most once, across the retry; success leaves a usable connection. */
  lemma InsertListIsAtomic(o: Oracle, s: Session, script: bool, parts: seq<Row>)
    ensures var r := InsertListSpec(o, s, script, parts);
            && r.s.committed == s.committed + Added(r.rc, parts)
            && (r.rc == OK ==> r.s.conn == Open(None))
  {
    TryInsertListIsAtomic(o, s, parts);
    var first := TryInsertListSpec(o, s, parts);
    if first.rc != OK {
      var extended := ExtendedErrcode(o, first.s);
      if Retryable(extended.rc) {
        InitCommitsNothing(o, extended.s, script);
        TryInsertListIsAtomic(o, InitSpec(o, extended.s, script).s, parts);
      }
    }
  }

  /** For a list that is not empty, the result code tells exactly whether it was committed. */
  lemma OkMeansCommitted(o: Oracle, s: Session, script: bool, parts: seq<Row>)
    requires parts != []
    ensures var r := InsertListSpec(o, s, script, parts);
            && (r.rc == OK <==> r.s.committed == s.committed + parts)
            && (r.rc != OK <==> r.s.committed == s.committed)
  {
    InsertListIsAtomic(o, s, script, parts);
    assert |s.committed + parts| != |s.committed|;
  }

  /** One entry at a time, outside of transactions: also all or nothing, and no transaction stays. */
  lemma InsertIsAtomic(o: Oracle, s: Session, script: bool, row: Row)
    requires s.conn.Open? ==> s.conn.txn.None?
    ensures var r := InsertSpec(o, s, script, row);
            && r.s.committed == s.committed + Added(r.rc, [row])
            && (r.s.conn.Open? ==> r.s.conn.txn.None?)
  {
    AutocommitInsert(o, s, row);
    var first := TryInsertSpec(o, s, row);
    if first.rc != OK {
      var extended := ExtendedErrcode(o, first.s);
      if extended.rc == READONLY_DBMOVED {
        InitCommitsNothing(o, extended.s, script);
        InitLeavesNoTransaction(o, extended.s, script);
        AutocommitInsert(o, InitSpec(o, extended.s, script).s, row);
      }
    }
  }

  lemma InitLeavesNoTransaction(o: Oracle, s: Session, script: bool)
    requires s.conn.Open? ==> s.conn.txn.None?
    ensures var r := InitSpec(o, s, script); r.s.conn.Open? ==> r.s.conn.txn.None?
  {
  }

  lemma AutocommitInsert(o: Oracle, s: Session, row: Row)
    requires s.conn.Open? ==> s.conn.txn.None?
    ensures var r := TryInsertSpec(o, s, row);
            && r.s.committed == s.committed + Added(r.rc, [row])
            && (r.s.conn.Open? ==> r.s.conn.txn.None?)
  {
    var prepared := Harmless(o, s);
    if prepared.rc == OK {
      BindKeepsRows(o, prepared.s, |row|);
    }
  }

  // ------------------------------------------------------------ sequences of calls

  /** What a worker with a buffer does with its database over its life. */
  datatype Call = InsertList(parts: seq<Row>) | Init | Shut

  function Perform(o: Oracle, s: Session, script: bool, call: Call): Reply {
    match call
    case InsertList(parts) => InsertListSpec(o, s, script, parts)
    case Init => InitSpec(o, s, script)
    case Shut => Close(o, s)
  }

  function After(o: Oracle, s: Session, script: bool, calls: seq<Call>): Session {
    if calls == [] then s
    else Perform(o, After(o, s, script, calls[..|calls| - 1]), script, calls[|calls| - 1]).s
  }

  /** The lists whose call reported success, one after the other. */
  function Reported(o: Oracle, s: Session, script: bool, calls: seq<Call>): seq<Row> {
    if calls == [] then []
    else
      var init, call := calls[..|calls| - 1], calls[|calls| - 1];
      Reported(o, s, script, init)
      + if call.InsertList? then Added(Perform(o, After(o, s, script, init), script, call).rc, call.parts) else []
  }

  /**
   * Over any sequence of calls and for every pattern of SQLite answers, the database gains
   * exactly the lists that were reported as written. A transaction that a failed COMMIT or
   * ROLLBACK left open never surfaces later.
   */
  lemma {:induction false} DatabaseHoldsWhatWasReported(o: Oracle, s: Session, script: bool, calls: seq<Call>)
    ensures After(o, s, script, calls).committed == s.committed + Reported(o, s, script, calls)
  {
    if calls != [] {
      var init, call := calls[..|calls| - 1], calls[|calls| - 1];
      DatabaseHoldsWhatWasReported(o, s, script, init);
      var mid := After(o, s, script, init);
      match call
      case InsertList(parts) => InsertListIsAtomic(o, mid, script, parts);
      case Init => InitCommitsNothing(o, mid, script);
      case Shut =>
    }
  }

  // ------------------------------------------------------------------- progress

  ghost predicate WorksFrom(o: Oracle, clock: nat) {
    forall i | clock <= i :: o(i).Works?
  }

  ghost predicate WorksBetween(o: Oracle, clock: nat, end: nat) {
    forall i | clock <= i < end :: o(i).Works?
  }

  /** How many calls it takes to insert rows: one to prepare, one per value, one to step. */
  function Calls(parts: seq<Row>): nat {
    if parts == [] then 0 else Calls(parts[..|parts| - 1]) + |parts[|parts| - 1]| + 2
  }

  lemma {:induction false} BindWorks(o: Oracle, s: Session, k: nat)
    requires s.conn.Open? && WorksBetween(o, s.clock, s.clock + k)
    ensures var r := BindSpec(o, s, k);
            r.rc == OK && r.s.conn == s.conn && r.s.committed == s.committed && r.s.clock == s.clock + k
  {
    if k != 0 {
      BindWorks(o, s, k - 1);
    }
  }

  lemma {:induction false} InsertPartsWorks(o: Oracle, s: Session, parts: seq<Row>)
    requires s.conn == Open(Some([])) && WorksBetween(o, s.clock, s.clock + Calls(parts))
    ensures var r := InsertPartsSpec(o, s, parts);
            && r.rc == OK && r.s.conn == Open(Some(parts)) && r.s.committed == s.committed
            && r.s.clock == s.clock + Calls(parts)
  {
    if parts != [] {
      var init, row := parts[..|parts| - 1], parts[|parts| - 1];
      assert parts == init + [row];
      InsertPartsWorks(o, s, init);
      var before := InsertPartsSpec(o, s, init);
      BindWorks(o, Harmless(o, before.s).s, |row|);
    }
  }

  /** Connecting succeeds if and only if each of its calls works: close, open, timeout, table, script. */
  lemma InitSucceedsIff(o: Oracle, s: Session, script: bool)
    ensures var calls := (if s.conn == Null then 3 else 4) + (if script then 1 else 0);
            var r := InitSpec(o, s, script);
            && (r.rc == OK <==> WorksBetween(o, s.clock, s.clock + calls))
            && (r.rc == OK ==> r.s.conn == Open(None) && r.s.clock == s.clock + calls)
  {
    var c := s.clock;
    var calls := (if s.conn == Null then 3 else 4) + (if script then 1 else 0);
    assert WorksBetween(o, c, c + calls) ==>
             o(c).Works? && o(c + 1).Works? && o(c + 2).Works? && (calls > 3 ==> o(c + 3).Works?);
    assert WorksBetween(o, c, c + calls) && calls == 5 ==> o(c + 4).Works?;
  }

  /** Where a stretch of binding fails, it ends. */
  lemma {:induction false} BindFailsAt(o: Oracle, s: Session, k: nat, at: nat)
    requires s.conn.Open? && s.clock <= at < s.clock + k && WorksBetween(o, s.clock, at) && o(at).Fails?
    ensures BindSpec(o, s, k) == Failed(s.(clock := at), o(at))
  {
    if at < s.clock + k - 1 {
      BindFailsAt(o, s, k - 1, at);
    } else {
      BindWorks(o, s, k - 1);
    }
  }

  /** An insert that fails at one call: the call decides the result and what becomes of the transaction. */
  lemma TryInsertFailsAt(o: Oracle, s: Session, row: Row, at: nat)
    requires s.conn.Open? && s.clock <= at < s.clock + |row| + 2 && WorksBetween(o, s.clock, at) && o(at).Fails?
    ensures TryInsertSpec(o, s, row) == Failed(s.(clock := at), o(at))
  {
    if at > s.clock {
      var prepared := Harmless(o, s);
      if at <= s.clock + |row| {
        BindFailsAt(o, prepared.s, |row|, at);
      } else {
        BindWorks(o, prepared.s, |row|);
      }
    }
  }

  /** An insert succeeds if and only if preparing, every binding and the step work. */
  lemma TryInsertSucceedsIff(o: Oracle, s: Session, row: Row)
    requires s.conn.Open?
    ensures TryInsertSpec(o, s, row).rc == OK <==> WorksBetween(o, s.clock, s.clock + |row| + 2)
  {
    if WorksBetween(o, s.clock, s.clock + |row| + 2) {
      BindWorks(o, Harmless(o, s).s, |row|);
    } else {
      var at := FirstFailure(o, s.clock, s.clock + |row| + 2);
      TryInsertFailsAt(o, s, row, at);
    }
  }

  lemma {:induction false} FirstFailure(o: Oracle, from: nat, end: nat) returns (at: nat)
    requires from <= end && !WorksBetween(o, from, end)
    ensures from <= at < end && WorksBetween(o, from, at) && o(at).Fails?
    decreases end - from
  {
    if o(from).Fails? {
      at := from;
    } else {
      at := FirstFailure(o, from + 1, end);
    }
  }

  /** The rows in a transaction when one of the calls of its inserts fails. */
  lemma {:induction false} InsertPartsFailsAt(o: Oracle, s: Session, parts: seq<Row>, at: nat)
    requires s.conn == Open(Some([]))
    requires s.clock <= at < s.clock + Calls(parts) && WorksBetween(o, s.clock, at) && o(at).Fails?
    ensures var r := InsertPartsSpec(o, s, parts);
            && r.rc == o(at).code && r.s.err == Some(o(at).code) && r.s.clock == at + 1
            && r.s.committed == s.committed && r.s.conn.Open? && (r.s.conn.txn == None <==> o(at).lost)
  {
    var init, row := parts[..|parts| - 1], parts[|parts| - 1];
    if at < s.clock + Calls(init) {
      InsertPartsFailsAt(o, s, init, at);
    } else {
      InsertPartsWorks(o, s, init);
      TryInsertFailsAt(o, InsertPartsSpec(o, s, init).s, row, at);
    }
  }

  /**
   * An attempt succeeds if and only if the connection is open without a transaction and every
   * call works: BEGIN, those of the inserts, COMMIT.
   */
  lemma AttemptSucceedsIff(o: Oracle, s: Session, parts: seq<Row>)
    ensures TryInsertListSpec(o, s, parts).rc == OK <==>
            s.conn == Open(None) && WorksBetween(o, s.clock, s.clock + Calls(parts) + 2)
  {
    if s.conn == Open(None) && o(s.clock).Works? {
      var begun, end := Begin(o, s).s, s.clock + 1 + Calls(parts);
      if WorksBetween(o, begun.clock, end) {
        InsertPartsWorks(o, begun, parts);
      } else {
        var at := FirstFailure(o, begun.clock, end);
        InsertPartsFailsAt(o, begun, parts, at);
      }
    }
  }

  lemma TryInsertListWorks(o: Oracle, s: Session, parts: seq<Row>)
    requires s.conn == Open(None) && WorksFrom(o, s.clock)
    ensures TryInsertListSpec(o, s, parts).rc == OK
  {
    AttemptSucceedsIff(o, s, parts);
  }

  /**
   * If the first attempt fails with a retryable code, the code of a moved file or OK, and SQLite
   * works from then on, the list is written after all.
   */
  lemma RetryRecovers(o: Oracle, s: Session, script: bool, parts: seq<Row>)
    requires var first := TryInsertListSpec(o, s, parts);
             && !first.s.conn.Null?
             && Retryable(ExtendedErrcode(o, first.s).rc)
             && WorksFrom(o, first.s.clock)
    ensures var r := InsertListSpec(o, s, script, parts);
            r.rc == OK && r.s.committed == s.committed + parts
  {
    InsertListIsAtomic(o, s, script, parts);
    var first := TryInsertListSpec(o, s, parts);
    if first.rc != OK {
      var extended := ExtendedErrcode(o, first.s).s;
      var init := InitSpec(o, extended, script);
      InitCommitsNothing(o, extended, script);
      assert init.rc == OK && first.s.clock <= init.s.clock;
      TryInsertListWorks(o, init.s, parts);
    }
  }

  /**
   * When a list is tried again. A call that failed last decides by its own code, so that only a
   * moved file leads to a retry; the code is open only after a ROLLBACK that worked.
   */
  lemma WhatIsRetried(o: Oracle, s: Session, parts: seq<Row>)
    requires s.conn.Open? && TryInsertListSpec(o, s, parts).rc != OK
    ensures var first, begun := TryInsertListSpec(o, s, parts), Begin(o, s);
            && first.s.conn.Open?
            && (first.s.err.Some? ==>
                  (Retryable(ExtendedErrcode(o, first.s).rc) <==> first.s.err == Some(READONLY_DBMOVED)))
            && (first.s.err == None <==>
                  && begun.rc == OK
                  && InsertPartsSpec(o, begun.s, parts).rc != OK
                  && Rollback(o, InsertPartsSpec(o, begun.s, parts).s).rc == OK)
  {
    var begun := Begin(o, s);
    if begun.rc == OK {
      InsertPartsInTransaction(o, begun.s, parts);
    }
  }

  /** The first call of an attempt that fails decides the result, whatever becomes of the ROLLBACK. */
  lemma AttemptReportsItsFailure(o: Oracle, s: Session, parts: seq<Row>, at: nat)
    requires s.conn == Open(None) && s.clock <= at < s.clock + Calls(parts) + 2
    requires WorksBetween(o, s.clock, at) && o(at).Fails?
    ensures TryInsertListSpec(o, s, parts).rc == o(at).code
  {
    if at > s.clock {
      var begun := Begin(o, s).s;
      if at <= s.clock + Calls(parts) {
        InsertPartsFailsAt(o, begun, parts, at);
      } else {
        InsertPartsWorks(o, begun, parts);
      }
    }
  }

  /** A failed attempt whose extended code is neither 0 nor 1032 is the end of it. */
  lemma OtherCodesAreFinal(o: Oracle, s: Session, script: bool, parts: seq<Row>)
    requires TryInsertListSpec(o, s, parts).rc != OK
    requires var code := ExtendedErrcode(o, TryInsertListSpec(o, s, parts).s).rc; code != 0 && code != 1032
    ensures var first, r := TryInsertListSpec(o, s, parts), InsertListSpec(o, s, script, parts);
            r.rc == first.rc && r.s.conn == first.s.conn && r.s.committed == first.s.committed
  {
  }

  /** When the file was moved and cannot be opened again, the result is that of opening it. */
  lemma FailedReconnectDecides(o: Oracle, s: Session, script: bool, parts: seq<Row>, row: Row)
    requires s.conn == Open(None) && o(s.clock).Fails? && o(s.clock).code == 1032
    requires o(s.clock + 1).Works? && o(s.clock + 2).Fails? && o(s.clock + 3).Works?
    ensures InsertListSpec(o, s, script, parts).rc == InsertSpec(o, s, script, row).rc == o(s.clock + 2).code
  {
    hide InsertPartsSpec, BindSpec;
  }

  /**
   * If one call of an attempt fails and SQLite works otherwise, the list is written after all if
   * and only if the failing call is one of an insert and leaves the transaction open, so that the
   * ROLLBACK works, or it is BEGIN or COMMIT and reports a moved file.
   */
  lemma OneFailureIsRetriedIff(o: Oracle, s: Session, script: bool, parts: seq<Row>, at: nat)
    requires s.conn == Open(None) && s.clock <= at < s.clock + Calls(parts) + 2
    requires WorksBetween(o, s.clock, at) && o(at).Fails? && WorksFrom(o, at + 1)
    ensures var r := InsertListSpec(o, s, script, parts);
            var ofInsert := s.clock < at <= s.clock + Calls(parts);
            && (r.rc == 0 <==> if ofInsert then !o(at).lost else o(at).code == 1032)
            && r.s.committed == s.committed + Added(r.rc, parts)
  {
    InsertListIsAtomic(o, s, script, parts);
    var first := TryInsertListSpec(o, s, parts);
    if at == s.clock {
      assert first.s.err == Some(o(at).code);
    } else if at <= s.clock + Calls(parts) {
      InsertPartsFailsAt(o, Begin(o, s).s, parts, at);
      assert first.s.err == if o(at).lost then Some(ERROR) else None;
    } else {
      InsertPartsWorks(o, Begin(o, s).s, parts);
      assert first.s.err == Some(o(at).code);
    }
    if Retryable(ExtendedErrcode(o, first.s).rc) {
      RetryRecovers(o, s, script, parts);
    } else {
      OtherCodesAreFinal(o, s, script, parts);
    }
  }

  /**
   * A list whose insert fails is written after all if the ROLLBACK works and SQLite works from
   * then on: the code of the failed insert is gone then.
   */
  lemma RolledBackListIsRetried(o: Oracle, s: Session, script: bool, parts: seq<Row>)
    requires s.conn == Open(None) && Begin(o, s).rc == 0
    requires var inserted := InsertPartsSpec(o, Begin(o, s).s, parts);
             && inserted.rc != 0
             && Rollback(o, inserted.s).rc == 0
             && WorksFrom(o, Rollback(o, inserted.s).s.clock)
    ensures var r := InsertListSpec(o, s, script, parts); r.rc == 0 && r.s.committed == s.committed + parts
  {
    RetryRecovers(o, s, script, parts);
  }

  /** The single insert is retried if and only if its failing call reports a moved file. */
  lemma OneFailedInsertIsRetriedIff(o: Oracle, s: Session, script: bool, row: Row, at: nat)
    requires s.conn == Open(None) && s.clock <= at < s.clock + |row| + 2
    requires WorksBetween(o, s.clock, at) && o(at).Fails? && WorksFrom(o, at + 1)
    ensures var r := InsertSpec(o, s, script, row);
            (r.rc == 0 <==> o(at).code == 1032) && r.s.committed == s.committed + Added(r.rc, [row])
  {
    TryInsertFailsAt(o, s, row, at);
    InsertIsAtomic(o, s, script, row);
    if o(at).code == 1032 {
      var failed := TryInsertSpec(o, s, row).s;
      InitSucceedsIff(o, failed, script);
      TryInsertSucceedsIff(o, InitSpec(o, failed, script).s, row);
    }
  }

  // ------------------------------------------------- connections that cannot write

  /** A connection over which a list can be written if SQLite works. */
  predicate Fit(conn: Conn) {
    conn == Open(None) || conn == Sick(READONLY_DBMOVED)
  }

  /**
   * With a working SQLite a list is written if and only if the connection is open and has no
   * transaction in progress, or is a failed one that counts as moved. Otherwise it stays as it is.
   */
  lemma WorkingSqliteWritesIffFit(o: Oracle, s: Session, script: bool, parts: seq<Row>)
    requires WorksFrom(o, s.clock)
    ensures var r := InsertListSpec(o, s, script, parts);
            && (r.rc == OK <==> Fit(s.conn))
            && (s.conn == Null ==> r.rc == MISUSE)
            && (s.conn.Sick? && !Fit(s.conn) ==> r.rc == MISUSE)
            && (s.conn.Open? && s.conn.txn.Some? ==> r.rc == ERROR)
            && (!Fit(s.conn) ==> r.s.conn == s.conn && r.s.committed == s.committed)
            && (Fit(s.conn) ==> r.s.conn == Open(None) && r.s.committed == s.committed + parts)
  {
    InsertListIsAtomic(o, s, script, parts);
    if s.conn == Open(None) {
      TryInsertListWorks(o, s, parts);
    } else if s.conn == Sick(READONLY_DBMOVED) {
      RetryRecovers(o, s, script, parts);
    }
  }

  /** SQLite that always works, and SQLite that reports a moved file once and then works. */
  const OBLIGING: Oracle := (i: nat) => Works
  const MOVED: Oracle := (i: nat) => if i == 0 then Fails(READONLY_DBMOVED, false) else Works

  /**
   * A list fails whatever SQLite answers if and only if there is no connection, or one that failed
   * to open, unless it counts as moved. From an open transaction only a failing SQLite helps.
   */
  lemma HopelessIffNotOpen(conn: Conn, committed: seq<Row>, script: bool, parts: seq<Row>)
    ensures (forall o: Oracle :: InsertListSpec(o, Session(conn, committed, 0, None), script, parts).rc != OK)
            <==> conn == Null || (conn.Sick? && !Fit(conn))
  {
    var s := Session(conn, committed, 0, None);
    if conn.Open? && conn.txn.Some? {
      var first := TryInsertListSpec(MOVED, s, parts);
      assert first.s == Fail(s, READONLY_DBMOVED).s;
      RetryRecovers(MOVED, s, script, parts);
    } else if Fit(conn) {
      WorkingSqliteWritesIffFit(OBLIGING, s, script, parts);
    }
  }

  /** Every call of a sequence writes a list. */
  predicate OnlyLists(calls: seq<Call>) {
    forall c | c in calls :: c.InsertList?
  }

  /**
   * A transaction that is left open wedges its connection. While SQLite works, every list that is
   * written over it fails, and the transaction stays open, until the connection is closed.
   */
  lemma {:induction false} OpenTransactionWedges(o: Oracle, s: Session, script: bool, calls: seq<Call>)
    requires s.conn.Open? && s.conn.txn.Some? && WorksFrom(o, s.clock) && OnlyLists(calls)
    ensures var end := After(o, s, script, calls);
            end.conn == s.conn && end.committed == s.committed && s.clock <= end.clock
    ensures Reported(o, s, script, calls) == []
  {
    if calls != [] {
      var init, call := calls[..|calls| - 1], calls[|calls| - 1];
      OpenTransactionWedges(o, s, script, init);
      assert call in calls;
      WorkingSqliteWritesIffFit(o, After(o, s, script, init), script, call.parts);
    }
  }

  /** How a connection gets there: everything works but the COMMIT, and SQLite keeps the transaction. */
  lemma FailedCommitWedges(o: Oracle, s: Session, script: bool, parts: seq<Row>)
    requires s.conn == Open(None)
    requires var commit := s.clock + 1 + Calls(parts);
             && WorksBetween(o, s.clock, commit)
             && o(commit).Fails? && !o(commit).lost && o(commit).code != READONLY_DBMOVED
    ensures var r := InsertListSpec(o, s, script, parts);
            && r.rc == o(s.clock + 1 + Calls(parts)).code
            && r.s.conn == Open(Some(parts)) && r.s.committed == s.committed
  {
    hide InsertPartsSpec, Calls;
    var begun := Begin(o, s).s;
    assert begun.conn == Open(Some([])) && begun.clock == s.clock + 1;
    InsertPartsWorks(o, begun, parts);
    assert [] + parts == parts;
  }

  /** Calls are only ever added. */
  lemma {:induction false} PartsTick(o: Oracle, s: Session, parts: seq<Row>)
    ensures s.clock <= InsertPartsSpec(o, s, parts).s.clock
  {
    if parts != [] {
      PartsTick(o, s, parts[..|parts| - 1]);
      var before := InsertPartsSpec(o, s, parts[..|parts| - 1]).s;
      BindTicks(o, Harmless(o, before).s, |parts[|parts| - 1]|);
    }
  }

  lemma {:induction false} BindTicks(o: Oracle, s: Session, k: nat)
    ensures s.clock <= BindSpec(o, s, k).s.clock
  {
    if k != 0 {
      BindTicks(o, s, k - 1);
    }
  }

  lemma AttemptTicks(o: Oracle, s: Session, parts: seq<Row>)
    ensures s.clock <= TryInsertListSpec(o, s, parts).s.clock
  {
    PartsTick(o, Begin(o, s).s, parts);
  }

  lemma ListsTick(o: Oracle, s: Session, script: bool, parts: seq<Row>)
    ensures s.clock <= InsertListSpec(o, s, script, parts).s.clock
  {
    hide TryInsertListSpec;
    var first := TryInsertListSpec(o, s, parts).s;
    AttemptTicks(o, s, parts);
    var extended := ExtendedErrcode(o, first).s;
    AttemptTicks(o, InitSpec(o, extended, script).s, parts);
    assert extended.clock <= InitSpec(o, extended, script).s.clock;
  }

  /** SQLite that is busy at one call, as it is at a COMMIT while somebody reads the file. */
  function BusyAt(clock: nat): Oracle {
    (i: nat) => if i == clock then Fails(BUSY, false) else Works
  }
}
