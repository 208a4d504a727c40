/**
 * SQLite as the module sees it: an oracle that decides, call by call, whether a call works, and
 * the effect of the calls that do. Nothing is assumed about when calls fail.
 */
module Sqlite {
  import opened Values

  const OK: int := 0
  const ERROR: int := 1
  const BUSY: int := 5
  const NOMEM: int := 7
  const MISUSE: int := 21
  const DONE: int := 101
  const READONLY_DBMOVED: int := 1032

  /** A result code that reports a failure. */
  type Failure = c: int | c != OK && c != DONE witness ERROR

  /**
   * The answer to one call: it works, or it fails with an extended code and may take an open
   * transaction down with it (SQLite rolls back on its own on some errors).
   */
  datatype Answer = Works | Fails(code: Failure, lost: bool)

  type Oracle = nat -> Answer

  /**
   * A connection handle: NULL, a handle left behind by an open that failed with a code, or an open
   * one with the rows of the transaction that is in progress, if there is one.
   */
  datatype Conn = Null | Sick(code: Failure) | Open(txn: Option<seq<Row>>)

  /**
   * A connection, the rows committed so far, the number of calls made, and the code of the latest
   * call on the open connection if that call failed.
   */
  datatype Session = Session(conn: Conn, committed: seq<Row>, clock: nat, err: Option<Failure>)

  datatype Reply = Reply(s: Session, rc: int)

  /** A call that works. */
  function Tick(s: Session): Session {
    s.(clock := s.clock + 1, err := None)
  }

  /** A call that fails with a code. */
  function Fail(s: Session, code: Failure): Reply {
    Reply(s.(clock := s.clock + 1, err := Some(code)), code)
  }

  /** A call that failed on an open connection, on its own or because it is not allowed there. */
  function Failed(s: Session, a: Answer): Reply
    requires s.conn.Open?
  {
    match a
    case Works => Fail(s, ERROR)
    case Fails(code, lost) => Fail(if lost then s.(conn := Open(None)) else s, code)
  }

  /** "BEGIN EXCLUSIVE TRANSACTION"; transactions do not nest. */
  function Begin(o: Oracle, s: Session): Reply {
    if !s.conn.Open? then Reply(s, MISUSE)
    else if o(s.clock).Works? && s.conn.txn.None? then Reply(Tick(s.(conn := Open(Some([])))), OK)
    else Failed(s, o(s.clock))
  }

  /** "COMMIT"; without a transaction it is an error. */
  function Commit(o: Oracle, s: Session): Reply {
    if !s.conn.Open? then Reply(s, MISUSE)
    else if o(s.clock).Works? && s.conn.txn.Some? then
      Reply(Tick(s.(conn := Open(None), committed := s.committed + s.conn.txn.value)), OK)
    else Failed(s, o(s.clock))
  }

  /** "ROLLBACK"; without a transaction it is an error. */
  function Rollback(o: Oracle, s: Session): Reply {
    if !s.conn.Open? then Reply(s, MISUSE)
    else if o(s.clock).Works? && s.conn.txn.Some? then Reply(Tick(s.(conn := Open(None))), OK)
    else Failed(s, o(s.clock))
  }

  /** A call without an effect on rows: preparing, binding, setting options, creating the table. */
  function Harmless(o: Oracle, s: Session): Reply {
    if !s.conn.Open? then Reply(s, MISUSE)
    else if o(s.clock).Works? then Reply(Tick(s), OK)
    else Failed(s, o(s.clock))
  }

  /** Executes a prepared INSERT; outside of a transaction the row is committed at once. */
  function Step(o: Oracle, s: Session, row: Row): Reply {
    if !s.conn.Open? then Reply(s, MISUSE)
    else if o(s.clock).Works? then
      match s.conn.txn
      case Some(rows) => Reply(Tick(s.(conn := Open(Some(rows + [row])))), DONE)
      case None => Reply(Tick(s.(committed := s.committed + [row])), DONE)
    else Failed(s, o(s.clock))
  }

  /**
   * The code of the latest call if that call failed. After a call that worked SQLite leaves it
   * undefined: here the oracle decides.
   */
  function ExtendedErrcode(o: Oracle, s: Session): Reply {
    match s.conn
    case Null => Reply(s, NOMEM)
    case Sick(code) => Reply(s, code)
    case Open(_) =>
      if s.err.Some? then Reply(s, s.err.value)
      else Reply(Tick(s), if o(s.clock).Works? then OK else o(s.clock).code)
  }

  /** Closing a connection drops its open transaction; a failed close leaves everything as it is. */
  function Close(o: Oracle, s: Session): Reply {
    if s.conn.Null? then Reply(s, OK)
    else if o(s.clock).Works? then Reply(Tick(s.(conn := Null)), OK)
    else Fail(s, o(s.clock).code)
  }

  /** Opening stores a handle even when it fails, unless memory ran out. */
  function OpenV2(o: Oracle, s: Session): Reply {
    match o(s.clock)
    case Works => Reply(Tick(s.(conn := Open(None))), OK)
    case Fails(code, lost) => Fail(s.(conn := if lost then Null else Sick(code)), code)
  }
}
